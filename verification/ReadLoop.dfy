/**
 The read loop's handling of frames: the CONTINUATION rule, the assembly of header blocks,
 and the end of streams. Other threads may add and remove streams between two frames.
 */
module ReadLoop {
  type Bytes = seq<nat>

  datatype Kind = Data | Headers | Continuation | Reset | WindowUpdate | PushPromise | Extension

  datatype Frame = Frame(kind: Kind, stream: nat, endHeaders: bool, endStream: bool, fragment: Bytes)

  /** What the header decoder or a frame handler outside this model answers. */
  datatype Verdict = Verdict(ok: bool, status: nat)

  /** The receive side of a stream that is in the table and not closed. */
  datatype Rx = Rx(headersParsed: bool, trailersReceived: bool, endStreamPending: bool)

  const FreshRx := Rx(false, false, false)

  /** A call of finish: the stream, whether it reported success, and whether a header sequence was open. */
  datatype FinishCall = FinishCall(stream: nat, ok: bool, midSequence: bool)

  /**
   The accepted frames, cut into complete header sequences and single other frames. A sequence
   also records whether its block was refused without being decoded, whether its stream was live,
   and the decoder's answer. `Fresh` records that a stream was opened.
   */
  datatype Item =
    | Single(frame: Frame)
    | Sequence(frames: seq<Frame>, refused: bool, live: bool, v: Verdict)
    | Fresh(stream: nat)

  /**
   The read loop's fields, the blocks handed to the decoder, the finish calls, and as
   history the accepted frames in `items` and, for the sequence still open, in `open`.
   */
  datatype State = State(
    continuationStream: nat,
    headerBuf: Bytes,
    controlFrames: nat,
    live: map<nat, Rx>,
    decoded: seq<Bytes>,
    finished: seq<FinishCall>,
    failed: bool,
    items: seq<Item>,
    open: seq<Frame>)

  const Start := State(0, [], 0, map[], [], [], false, [], [])

  const MAX_CONTROL_FRAMES: nat := 1000

  predicate CarriesHeaders(f: Frame) {
    f.kind.Headers? || f.kind.Continuation?
  }

  /** Section 6.10 of RFC 9113, as readNext checks it. */
  predicate Allowed(continuationStream: nat, f: Frame) {
    if continuationStream != 0 then f.kind.Continuation? && f.stream == continuationStream
    else !f.kind.Continuation?
  }

  function CountControl(n: nat, f: Frame): nat {
    if f.kind.Data? || CarriesHeaders(f) then 0 else n + 1
  }

  /** Statuses after which no further header block of the response may come. */
  predicate FinalStatus(status: nat) {
    status < 100 || status >= 200 || status == 101
  }

  // ---- The specification: one way of assembling blocks, whatever the stream's fate ----

  function Fail(s: State): State {
    s.(failed := true)
  }

  function EndStream(s: State, stream: nat, ok: bool): State {
    s.(live := s.live - {stream},
       finished := s.finished + [FinishCall(stream, ok, s.continuationStream != 0)])
  }

  function KeepFragment(s: State, f: Frame): State {
    s.(continuationStream := f.stream,
       headerBuf := s.headerBuf + f.fragment,
       open := s.open + [f],
       live := if f.stream in s.live && f.endStream
               then s.live[f.stream := s.live[f.stream].(endStreamPending := true)]
               else s.live)
  }

  function CloseSequence(s: State, f: Frame, refused: bool, v: Verdict): State {
    s.(continuationStream := 0,
       headerBuf := [],
       open := [],
       items := s.items + [Sequence(s.open + [f], refused, f.stream in s.live, v)],
       decoded := if refused then s.decoded else s.decoded + [s.headerBuf + f.fragment])
  }

  predicate Refuses(s: State, stream: nat) {
    stream in s.live && s.live[stream].headersParsed && s.live[stream].trailersReceived
  }

  function DeliverBlock(s: State, f: Frame, v: Verdict): State {
    var t := CloseSequence(s, f, Refuses(s, f.stream), v);
    if f.stream !in s.live then
      if v.ok then t else Fail(t)
    else if Refuses(s, f.stream) || !v.ok then
      EndStream(t, f.stream, false)
    else
      var r := s.live[f.stream];
      var r' := if r.headersParsed then r.(trailersReceived := true)
                else r.(headersParsed := FinalStatus(v.status));
      if f.endStream || r.endStreamPending then EndStream(t, f.stream, true)
      else t.(live := t.live[f.stream := r'])
  }

  /** readStream's error for a frame that carries no header block. */
  predicate Rejects(r: Rx, f: Frame, v: Verdict) {
    f.kind.Reset? || (f.kind.Data? && r.trailersReceived)
    || ((f.kind.WindowUpdate? || f.kind.PushPromise?) && !v.ok)
  }

  function HandleOther(s: State, f: Frame, v: Verdict): State {
    var t := s.(items := s.items + [Single(f)]);
    if f.stream == 0 then
      if v.ok then t else Fail(t)
    else if f.stream !in s.live then t
    else if Rejects(s.live[f.stream], f, v) then EndStream(t, f.stream, false)
    else if f.endStream then EndStream(t, f.stream, true)
    else t
  }

  function Receive(s: State, f: Frame, v: Verdict): State {
    if !Allowed(s.continuationStream, f) then Fail(s)
    else
      var t := s.(controlFrames := CountControl(s.controlFrames, f));
      if t.controlFrames > MAX_CONTROL_FRAMES then Fail(t)
      else if !CarriesHeaders(f) then HandleOther(t, f, v)
      else if !f.endHeaders then KeepFragment(t, f)
      else DeliverBlock(t, f, v)
  }

  /** Another thread's doing between two frames: a stream is opened, or cancelled or purged. */
  datatype Event = Inbound(f: Frame, v: Verdict) | Opened(stream: nat) | Dropped(stream: nat)

  /** Frames the decoder lets through: header frames are never on stream 0. */
  predicate Admissible(s: State, e: Event) {
    match e
    case Inbound(f, _) => !s.failed && (CarriesHeaders(f) ==> f.stream != 0)
    case Opened(stream) => stream != 0 && stream !in s.live
    case Dropped(stream) => true
  }

  function Next(s: State, e: Event): State {
    match e
    case Inbound(f, v) => Receive(s, f, v)
    case Opened(stream) => s.(live := s.live[stream := FreshRx], items := s.items + [Fresh(stream)])
    case Dropped(stream) => s.(live := s.live - {stream})
  }

  ghost predicate Run(s: State, es: seq<Event>, t: State)
    decreases |es|
  {
    if es == [] then s == t else Admissible(s, es[0]) && Run(Next(s, es[0]), es[1..], t)
  }

  // ---- What the assembly guarantees ----

  function Payload(fs: seq<Frame>): Bytes {
    if fs == [] then [] else Payload(fs[..|fs| - 1]) + fs[|fs| - 1].fragment
  }

  /** A HEADERS frame and CONTINUATION frames, all on `stream`, none but a last one ending the block. */
  predicate SequencePrefix(fs: seq<Frame>, stream: nat) {
    && stream != 0
    && fs != []
    && (forall i | 0 <= i < |fs| ::
          fs[i].stream == stream && (if i == 0 then fs[i].kind.Headers? else fs[i].kind.Continuation?))
    && (forall i | 0 <= i < |fs| - 1 :: !fs[i].endHeaders)
  }

  /** A whole header block on the wire. */
  predicate CompleteSequence(fs: seq<Frame>) {
    fs != [] && SequencePrefix(fs, fs[0].stream) && fs[|fs| - 1].endHeaders
  }

  predicate ItemOk(i: Item) {
    match i
    case Single(f) => !CarriesHeaders(f)
    case Sequence(fs, _, _, _) => CompleteSequence(fs)
    case Fresh(_) => true
  }

  /** The blocks of the sequences that were not refused, in order. */
  function Blocks(items: seq<Item>): seq<Bytes> {
    if items == [] then []
    else
      var i := items[|items| - 1];
      Blocks(items[..|items| - 1]) + if i.Sequence? && !i.refused then [Payload(i.frames)] else []
  }

  /** Every item is well formed and the decoder was given their blocks. */
  ghost predicate LogOk(items: seq<Item>, decoded: seq<Bytes>) {
    (forall i | 0 <= i < |items| :: ItemOk(items[i])) && decoded == Blocks(items)
  }

  /** The buffer holds the fragments of the open sequence. */
  ghost predicate BufferOk(stream: nat, buf: Bytes, open: seq<Frame>) {
    && buf == Payload(open)
    && (stream == 0 <==> open == [])
    && (open != [] ==> SequencePrefix(open, stream) && !open[|open| - 1].endHeaders)
  }

  ghost predicate LiveOk(live: map<nat, Rx>, stream: nat) {
    0 !in live && forall id | id in live && live[id].endStreamPending :: id == stream
  }

  ghost predicate FinishesOk(finished: seq<FinishCall>) {
    forall i | 0 <= i < |finished| :: finished[i].ok ==> !finished[i].midSequence
  }

  // ---- When a block is refused ----

  /**
   How far the response on `id` has come since the stream was opened, told from the log alone:
   2 once trailers were decoded, 1 once a final status was, 0 before.
   */
  function Phase(items: seq<Item>, id: nat): (p: nat)
    ensures p <= 2
  {
    if items == [] then 0
    else PhaseAfter(Phase(items[..|items| - 1], id), items[|items| - 1], id)
  }

  predicate Decoded(i: Item, id: nat) {
    i.Sequence? && i.frames != [] && i.frames[0].stream == id && i.live && !i.refused
  }

  function PhaseAfter(p: nat, i: Item, id: nat): (q: nat)
    requires p <= 2
    ensures q <= 2
  {
    if i.Fresh? then (if i.stream == id then 0 else p)
    else if Decoded(i, id) && i.v.ok then (if p >= 1 then 2 else if FinalStatus(i.v.status) then 1 else 0)
    else p
  }

  /** What the read loop remembers of a live stream is what the log says. */
  ghost predicate RxOk(items: seq<Item>, live: map<nat, Rx>) {
    forall id | id in live ::
      && (live[id].headersParsed <==> Phase(items, id) >= 1)
      && (live[id].trailersReceived <==> Phase(items, id) == 2)
  }

  /** A sequence was refused exactly if its stream was live and its trailers had been decoded. */
  predicate RefusedRightly(before: seq<Item>, i: Item) {
    i.Sequence? && i.frames != [] ==> (i.refused <==> i.live && Phase(before, i.frames[0].stream) == 2)
  }

  ghost predicate RefusalsOk(items: seq<Item>) {
    forall n | 0 <= n < |items| :: RefusedRightly(items[..n], items[n])
  }

  lemma PhaseSnoc(items: seq<Item>, i: Item, id: nat)
    ensures Phase(items + [i], id) == PhaseAfter(Phase(items, id), i, id)
  {
    assert (items + [i])[..|items + [i]| - 1] == items;
  }

  lemma RefusalsGrow(items: seq<Item>, i: Item)
    requires RefusalsOk(items) && RefusedRightly(items, i)
    ensures RefusalsOk(items + [i])
  {
    forall n | 0 <= n < |items + [i]|
      ensures RefusedRightly((items + [i])[..n], (items + [i])[n])
    {
      if n < |items| {
        assert (items + [i])[..n] == items[..n];
      } else {
        assert (items + [i])[..n] == items;
      }
    }
  }

  /** Items that say nothing about any stream's response. */
  lemma SilentItem(items: seq<Item>, live: map<nat, Rx>, live': map<nat, Rx>, i: Item)
    requires RxOk(items, live) && RefusalsOk(items) && i.Single?
    requires forall id | id in live' ::
               id in live && live'[id].(endStreamPending := false) == live[id].(endStreamPending := false)
    ensures RxOk(items + [i], live') && RefusalsOk(items + [i])
  {
    RefusalsGrow(items, i);
    forall id | id in live'
      ensures Phase(items + [i], id) == Phase(items, id)
    {
      PhaseSnoc(items, i, id);
    }
  }

  /** Two earlier blocks of the stream reached the decoder before one was refused. */
  lemma {:induction false} PhaseHasWitnesses(items: seq<Item>, id: nat)
    ensures Phase(items, id) >= 1 ==> exists a :: 0 <= a < |items| && Decoded(items[a], id)
    ensures Phase(items, id) == 2 ==>
              exists a, b :: 0 <= a < b < |items| && Decoded(items[a], id) && Decoded(items[b], id)
  {
    if items != [] {
      var rest := items[..|items| - 1];
      PhaseHasWitnesses(rest, id);
      if Phase(rest, id) == 2 {
        var a, b :| 0 <= a < b < |rest| && Decoded(rest[a], id) && Decoded(rest[b], id);
        assert Decoded(items[a], id) && Decoded(items[b], id);
      } else if Phase(rest, id) >= 1 {
        var a :| 0 <= a < |rest| && Decoded(rest[a], id);
        assert Decoded(items[a], id);
      }
    }
  }

  ghost predicate Inv(s: State) {
    LogInv(s) && RxOk(s.items, s.live) && RefusalsOk(s.items)
  }

  ghost predicate LogInv(s: State) {
    && LogOk(s.items, s.decoded)
    && BufferOk(s.continuationStream, s.headerBuf, s.open)
    && LiveOk(s.live, s.continuationStream)
    && FinishesOk(s.finished)
  }

  lemma PayloadSnoc(fs: seq<Frame>, f: Frame)
    ensures Payload(fs + [f]) == Payload(fs) + f.fragment
  {
    assert (fs + [f])[..|fs + [f]| - 1] == fs;
  }

  lemma LogGrows(items: seq<Item>, decoded: seq<Bytes>, i: Item)
    requires LogOk(items, decoded) && ItemOk(i)
    ensures LogOk(items + [i], decoded + if i.Sequence? && !i.refused then [Payload(i.frames)] else [])
  {
    assert (items + [i])[..|items + [i]| - 1] == items;
  }

  lemma BufferGrows(stream: nat, buf: Bytes, open: seq<Frame>, f: Frame)
    requires BufferOk(stream, buf, open) && Allowed(stream, f) && CarriesHeaders(f) && f.stream != 0
    ensures Payload(open + [f]) == buf + f.fragment
    ensures !f.endHeaders ==> BufferOk(f.stream, buf + f.fragment, open + [f])
    ensures f.endHeaders ==> CompleteSequence(open + [f])
  {
    PayloadSnoc(open, f);
  }

  lemma KeepFragmentKeeps(s: State, f: Frame)
    requires LogInv(s) && Allowed(s.continuationStream, f) && CarriesHeaders(f) && f.stream != 0 && !f.endHeaders
    ensures LogInv(KeepFragment(s, f))
  {
    BufferGrows(s.continuationStream, s.headerBuf, s.open, f);
  }

  /** finish takes the stream out; it reports success only between sequences. */
  lemma EndStreamKeeps(s: State, stream: nat, ok: bool)
    requires LogOk(s.items, s.decoded) && BufferOk(s.continuationStream, s.headerBuf, s.open)
    requires LiveOk(s.live - {stream}, s.continuationStream) && FinishesOk(s.finished)
    requires ok ==> s.continuationStream == 0
    ensures LogInv(EndStream(s, stream, ok))
  {
  }

  lemma CloseSequenceKeeps(s: State, f: Frame, refused: bool, v: Verdict)
    requires LogInv(s) && Allowed(s.continuationStream, f) && CarriesHeaders(f) && f.stream != 0 && f.endHeaders
    ensures var t := CloseSequence(s, f, refused, v);
            && LogOk(t.items, t.decoded) && BufferOk(t.continuationStream, t.headerBuf, t.open)
            && LiveOk(t.live - {f.stream}, t.continuationStream) && FinishesOk(t.finished)
  {
    BufferGrows(s.continuationStream, s.headerBuf, s.open, f);
    LogGrows(s.items, s.decoded, Sequence(s.open + [f], refused, f.stream in s.live, v));
  }

  lemma DeliverBlockKeeps(s: State, f: Frame, v: Verdict)
    requires LogInv(s) && Allowed(s.continuationStream, f) && CarriesHeaders(f) && f.stream != 0 && f.endHeaders
    ensures LogInv(DeliverBlock(s, f, v))
  {
    var t := CloseSequence(s, f, Refuses(s, f.stream), v);
    CloseSequenceKeeps(s, f, Refuses(s, f.stream), v);
    if f.stream !in s.live {
      assert t.live - {f.stream} == t.live;
    } else {
      EndStreamKeeps(t, f.stream, true);
      EndStreamKeeps(t, f.stream, false);
      assert forall id | id in s.live && id != f.stream :: id in t.live - {f.stream};
    }
  }

  lemma HandleOtherKeeps(s: State, f: Frame, v: Verdict)
    requires LogInv(s) && Allowed(s.continuationStream, f) && !CarriesHeaders(f)
    ensures LogInv(HandleOther(s, f, v))
  {
    LogGrows(s.items, s.decoded, Single(f));
    var t := s.(items := s.items + [Single(f)]);
    assert LogInv(t);
    EndStreamKeeps(t, f.stream, true);
    EndStreamKeeps(t, f.stream, false);
  }

  lemma NextKeepsLog(s: State, e: Event)
    requires LogInv(s) && Admissible(s, e)
    ensures LogInv(Next(s, e))
  {
    match e
    case Inbound(f, v) =>
      var t := s.(controlFrames := CountControl(s.controlFrames, f));
      if Allowed(s.continuationStream, f) {
        if !CarriesHeaders(f) {
          HandleOtherKeeps(t, f, v);
        } else if !f.endHeaders {
          KeepFragmentKeeps(t, f);
        } else {
          DeliverBlockKeeps(t, f, v);
        }
      }
    case Opened(stream) => LogGrows(s.items, s.decoded, Fresh(stream));
    case Dropped(_) =>
  }

  lemma DeliverBlockRefuses(s: State, f: Frame, v: Verdict)
    requires RxOk(s.items, s.live) && RefusalsOk(s.items) && CarriesHeaders(f) && f.stream != 0
    requires s.open != [] ==> s.open[0].stream == f.stream
    ensures RxOk(DeliverBlock(s, f, v).items, DeliverBlock(s, f, v).live) && RefusalsOk(DeliverBlock(s, f, v).items)
  {
    var d, i := DeliverBlock(s, f, v), Sequence(s.open + [f], Refuses(s, f.stream), f.stream in s.live, v);
    assert d.items == s.items + [i] && i.frames[0].stream == f.stream;
    RefusalsGrow(s.items, i);
    forall id | id in d.live
      ensures d.live[id].headersParsed <==> Phase(d.items, id) >= 1
      ensures d.live[id].trailersReceived <==> Phase(d.items, id) == 2
    {
      PhaseSnoc(s.items, i, id);
    }
  }

  lemma OpenedRefuses(s: State, stream: nat)
    requires RxOk(s.items, s.live) && RefusalsOk(s.items)
    ensures RxOk(s.items + [Fresh(stream)], s.live[stream := FreshRx]) && RefusalsOk(s.items + [Fresh(stream)])
  {
    RefusalsGrow(s.items, Fresh(stream));
    forall id | id in s.live[stream := FreshRx]
      ensures Phase(s.items + [Fresh(stream)], id) == if id == stream then 0 else Phase(s.items, id)
    {
      PhaseSnoc(s.items, Fresh(stream), id);
    }
  }

  lemma OtherRefuses(s: State, f: Frame, v: Verdict)
    requires RxOk(s.items, s.live) && RefusalsOk(s.items)
    ensures RxOk(HandleOther(s, f, v).items, HandleOther(s, f, v).live) && RefusalsOk(HandleOther(s, f, v).items)
  {
    var d := HandleOther(s, f, v);
    assert d.items == s.items + [Single(f)] && (d.live == s.live || d.live == s.live - {f.stream});
    SilentItem(s.items, s.live, d.live, Single(f));
  }

  lemma ReceiveRefuses(s: State, f: Frame, v: Verdict)
    requires Inv(s) && (CarriesHeaders(f) ==> f.stream != 0)
    ensures RxOk(Receive(s, f, v).items, Receive(s, f, v).live) && RefusalsOk(Receive(s, f, v).items)
  {
    var t := s.(controlFrames := CountControl(s.controlFrames, f));
    if Allowed(s.continuationStream, f) && t.controlFrames <= MAX_CONTROL_FRAMES {
      if !CarriesHeaders(f) {
        OtherRefuses(t, f, v);
      } else if f.endHeaders {
        DeliverBlockRefuses(t, f, v);
      }
    }
  }

  lemma NextKeeps(s: State, e: Event)
    requires Inv(s) && Admissible(s, e)
    ensures Inv(Next(s, e))
  {
    NextKeepsLog(s, e);
    match e
    case Inbound(f, v) => ReceiveRefuses(s, f, v);
    case Opened(stream) => OpenedRefuses(s, stream);
    case Dropped(_) =>
  }

  lemma {:induction false} RunKeeps(s: State, es: seq<Event>, t: State)
    requires Inv(s) && Run(s, es, t)
    ensures Inv(t)
    decreases |es|
  {
    if es != [] {
      NextKeeps(s, es[0]);
      RunKeeps(Next(s, es[0]), es[1..], t);
    }
  }

  function Accepted(s: State, e: Event): seq<Frame> {
    if e.Inbound? && Allowed(s.continuationStream, e.f) && CountControl(s.controlFrames, e.f) <= MAX_CONTROL_FRAMES
    then [e.f] else []
  }

  /** The frames readNext let through, in order. */
  ghost function History(s: State, es: seq<Event>): seq<Frame>
    decreases |es|
  {
    if es == [] then [] else Accepted(s, es[0]) + History(Next(s, es[0]), es[1..])
  }

  function Frames(i: Item): seq<Frame> {
    match i
    case Single(f) => [f]
    case Sequence(fs, _, _, _) => fs
    case Fresh(_) => []
  }

  function Flatten(items: seq<Item>): seq<Frame> {
    if items == [] then [] else Flatten(items[..|items| - 1]) + Frames(items[|items| - 1])
  }

  lemma FlattenSnoc(items: seq<Item>, i: Item)
    ensures Flatten(items + [i]) == Flatten(items) + Frames(i)
  {
    assert (items + [i])[..|items + [i]| - 1] == items;
  }

  /** All frames accepted so far. */
  function Log(items: seq<Item>, open: seq<Frame>): seq<Frame> {
    Flatten(items) + open
  }

  lemma LogSingle(items: seq<Item>, f: Frame)
    ensures Log(items + [Single(f)], []) == Log(items, []) + [f]
  {
    FlattenSnoc(items, Single(f));
  }

  lemma LogSequence(items: seq<Item>, open: seq<Frame>, f: Frame, i: Item)
    requires i.Sequence? && i.frames == open + [f]
    ensures Log(items + [i], []) == Log(items, open) + [f]
  {
    FlattenSnoc(items, i);
  }

  lemma LogFragment(items: seq<Item>, open: seq<Frame>, f: Frame)
    ensures Log(items, open + [f]) == Log(items, open) + [f]
  {
  }

  lemma ReceiveLogs(s: State, f: Frame, v: Verdict)
    requires s.open == [] || CarriesHeaders(f)
    requires Allowed(s.continuationStream, f) && CountControl(s.controlFrames, f) <= MAX_CONTROL_FRAMES
    ensures Log(Receive(s, f, v).items, Receive(s, f, v).open) == Log(s.items, s.open) + [f]
  {
    var t := Receive(s, f, v);
    if !CarriesHeaders(f) {
      assert t.items == s.items + [Single(f)] && t.open == s.open;
      LogSingle(s.items, f);
    } else if !f.endHeaders {
      assert t.items == s.items && t.open == s.open + [f];
      LogFragment(s.items, s.open, f);
    } else {
      var i := Sequence(s.open + [f], Refuses(s, f.stream), f.stream in s.live, v);
      assert t.items == s.items + [i] && t.open == [];
      LogSequence(s.items, s.open, f, i);
    }
  }

  /** Nothing accepted is lost, reordered or invented. */
  lemma NextLogs(s: State, e: Event)
    requires BufferOk(s.continuationStream, s.headerBuf, s.open) && Admissible(s, e)
    ensures Log(Next(s, e).items, Next(s, e).open) == Log(s.items, s.open) + Accepted(s, e)
  {
    if Accepted(s, e) != [] {
      ReceiveLogs(s, e.f, e.v);
    } else if e.Opened? {
      FlattenSnoc(s.items, Fresh(e.stream));
    }
  }

  lemma Associative(a: seq<Frame>, b: seq<Frame>, c: seq<Frame>)
    ensures (a + b) + c == a + (b + c)
  {
  }

  lemma {:induction false} RunLogs(s: State, es: seq<Event>, t: State)
    requires Inv(s) && Run(s, es, t)
    ensures Log(t.items, t.open) == Log(s.items, s.open) + History(s, es)
    decreases |es|
  {
    if es != [] {
      var s' := Next(s, es[0]);
      NextKeeps(s, es[0]);
      NextLogs(s, es[0]);
      RunLogs(s', es[1..], t);
      Associative(Log(s.items, s.open), Accepted(s, es[0]), History(s', es[1..]));
    }
  }

  /**
   CONTINUATION assembly over every run: the accepted frames are cut into single frames
   without header blocks and complete sequences, followed by at most one open sequence; the
   blocks handed to the decoder are the concatenated fragments of exactly the sequences that
   were not refused, in order, whatever became of their streams; a sequence is refused exactly if
   its stream is live and its trailers have been decoded since it was opened; the buffer is empty
   when no sequence is open; and no stream finished successfully inside a sequence.
   */
  lemma BlocksAreAssembled(es: seq<Event>, t: State)
    requires Run(Start, es, t)
    ensures History(Start, es) == Flatten(t.items) + t.open
    ensures forall i | 0 <= i < |t.items| :: ItemOk(t.items[i])
    ensures t.decoded == Blocks(t.items)
    ensures forall n | 0 <= n < |t.items| :: RefusedRightly(t.items[..n], t.items[n])
    ensures t.open != [] ==> SequencePrefix(t.open, t.continuationStream)
    ensures t.continuationStream == 0 ==> t.headerBuf == [] && t.open == []
    ensures forall i | 0 <= i < |t.finished| :: t.finished[i].ok ==> !t.finished[i].midSequence
  {
    RunKeeps(Start, es, t);
    RunLogs(Start, es, t);
    assert Log(Start.items, Start.open) == [];
  }

  /** A refused block has two earlier blocks of the same stream before it that the decoder got. */
  lemma RefusedAfterTwo(es: seq<Event>, t: State, n: nat)
    requires Run(Start, es, t) && n < |t.items| && t.items[n].Sequence? && t.items[n].refused && t.items[n].frames != []
    ensures exists a, b :: 0 <= a < b < n
              && Decoded(t.items[a], t.items[n].frames[0].stream) && Decoded(t.items[b], t.items[n].frames[0].stream)
  {
    var id := t.items[n].frames[0].stream;
    BlocksAreAssembled(es, t);
    assert RefusedRightly(t.items[..n], t.items[n]);
    PhaseHasWitnesses(t.items[..n], id);
    var a, b :| 0 <= a < b < |t.items[..n]| && Decoded(t.items[..n][a], id) && Decoded(t.items[..n][b], id);
    assert Decoded(t.items[a], id) && Decoded(t.items[b], id);
  }

  /**
   A deferred END_STREAM is not forgotten: once no sequence is open, no live stream has one
   pending, and during a sequence only that sequence's stream may.
   */
  lemma PendingEndIsHonoured(es: seq<Event>, t: State, id: nat)
    requires Run(Start, es, t) && id in t.live && t.live[id].endStreamPending
    ensures t.continuationStream == id != 0
  {
    RunKeeps(Start, es, t);
  }

  // ---- The loop itself ----

  /**
   The fields of Conn that the read loop owns. The source assembles blocks twice, once for
   streams that are gone and once in readStream; both refine Receive.
   */
  class Loop {
    var continuationStream: nat
    var headerBuf: Bytes
    var controlFrames: nat
    var live: map<nat, Rx>
    var decoded: seq<Bytes>
    var finished: seq<FinishCall>
    var failed: bool
    ghost var items: seq<Item>
    ghost var open: seq<Frame>

    ghost function Abs(): State
      reads this
    {
      State(continuationStream, headerBuf, controlFrames, live, decoded, finished, failed, items, open)
    }

    constructor ()
      ensures Abs() == Start
    {
      continuationStream, headerBuf, controlFrames := 0, [], 0;
      live, decoded, finished, failed := map[], [], [], false;
      items, open := [], [];
    }

    method Finish(stream: nat, ok: bool)
      modifies this
      ensures Abs() == EndStream(old(Abs()), stream, ok)
    {
      live := live - {stream};
      finished := finished + [FinishCall(stream, ok, continuationStream != 0)];
    }

    /** The branch for a stream that is not in the table or is closed. */
    method DeadStream(f: Frame, v: Verdict)
      requires BufferOk(continuationStream, headerBuf, open) && f.stream != 0 && f.stream !in live
      modifies this
      ensures Abs() == if !CarriesHeaders(f) then HandleOther(old(Abs()), f, v)
                       else if !f.endHeaders then KeepFragment(old(Abs()), f)
                       else DeliverBlock(old(Abs()), f, v)
    {
      if CarriesHeaders(f) {
        if !f.endHeaders {
          continuationStream := f.stream;
          headerBuf := headerBuf + f.fragment;
          open := open + [f];
          return;
        }
        var fullHeaders := f.fragment;
        if continuationStream != 0 {
          continuationStream := 0;
          headerBuf := headerBuf + f.fragment;
          fullHeaders := headerBuf;
        }
        assert fullHeaders == old(headerBuf) + f.fragment;
        decoded := decoded + [fullHeaders];
        headerBuf := [];
        items, open := items + [Sequence(open + [f], false, false, v)], [];
        failed := failed || !v.ok;
      } else {
        items := items + [Single(f)];
      }
    }

    /** readStream's case for HEADERS and CONTINUATION when the block is complete. */
    method LiveBlock(f: Frame, v: Verdict) returns (ok: bool)
      requires BufferOk(continuationStream, headerBuf, open)
      requires CarriesHeaders(f) && f.endHeaders && f.stream in live
      modifies this
      ensures ok == (!Refuses(old(Abs()), f.stream) && v.ok)
      ensures var t := CloseSequence(old(Abs()), f, Refuses(old(Abs()), f.stream), v);
              var r := old(live)[f.stream];
              Abs() == if !ok then t else
                t.(live := t.live[f.stream := if r.headersParsed then r.(trailersReceived := true)
                                              else r.(headersParsed := FinalStatus(v.status))])
    {
      var fullHeaders := f.fragment;
      if continuationStream != 0 {
        continuationStream := 0;
        headerBuf := headerBuf + f.fragment;
        fullHeaders := headerBuf;
      }
      assert fullHeaders == old(headerBuf) + f.fragment;
      var r := live[f.stream];
      headerBuf := [];
      if r.headersParsed && r.trailersReceived {
        items, open := items + [Sequence(open + [f], true, true, v)], [];
        return false;
      }
      items, open := items + [Sequence(open + [f], false, true, v)], [];
      decoded := decoded + [fullHeaders];
      ok := v.ok;
      if ok {
        if r.headersParsed {
          r := r.(trailersReceived := true);
        } else if FinalStatus(v.status) {
          r := r.(headersParsed := true);
        }
        live := live[f.stream := r];
      }
    }

    /** readStream, then the end-of-stream handling that follows it in the loop. */
    method LiveStream(f: Frame, v: Verdict)
      requires BufferOk(continuationStream, headerBuf, open) && Allowed(continuationStream, f)
      requires f.stream != 0 && f.stream in live
      requires live[f.stream].endStreamPending ==> f.stream == continuationStream
      modifies this
      ensures Abs() == if !CarriesHeaders(f) then HandleOther(old(Abs()), f, v)
                       else if !f.endHeaders then KeepFragment(old(Abs()), f)
                       else DeliverBlock(old(Abs()), f, v)
    {
      ghost var s := Abs();
      var ok;
      if CarriesHeaders(f) {
        if !f.endHeaders {
          continuationStream := f.stream;
          headerBuf := headerBuf + f.fragment;
          open := open + [f];
          ok := true;
        } else {
          ok := LiveBlock(f, v);
        }
      } else {
        items := items + [Single(f)];
        ok := !Rejects(live[f.stream], f, v);
      }
      if !ok {
        Finish(f.stream, false);
      } else if f.endStream {
        if continuationStream != 0 {
          live := live[f.stream := live[f.stream].(endStreamPending := true)];
        } else {
          Finish(f.stream, true);
        }
      } else if continuationStream == 0 && live[f.stream].endStreamPending {
        Finish(f.stream, true);
      }
    }

    /** One turn of the loop: readNext's checks, then one of the two branches. */
    method Turn(f: Frame, v: Verdict)
      requires BufferOk(continuationStream, headerBuf, open) && LiveOk(live, continuationStream)
      requires CarriesHeaders(f) ==> f.stream != 0
      modifies this
      ensures Abs() == Receive(old(Abs()), f, v)
    {
      if continuationStream != 0 {
        if !f.kind.Continuation? || f.stream != continuationStream {
          failed := true;
          return;
        }
      } else if f.kind.Continuation? {
        failed := true;
        return;
      }
      controlFrames := if f.kind.Data? || CarriesHeaders(f) then 0 else controlFrames + 1;
      if controlFrames > MAX_CONTROL_FRAMES {
        failed := true;
        return;
      }
      if f.stream == 0 {
        items := items + [Single(f)];
        failed := failed || !v.ok;
      } else if f.stream in live {
        LiveStream(f, v);
      } else {
        DeadStream(f, v);
      }
    }

    /** Turns keep the invariant that BlocksAreAssembled rests on. */
    method Handle(f: Frame, v: Verdict)
      requires Inv(Abs()) && Admissible(Abs(), Inbound(f, v))
      modifies this
      ensures Inv(Abs()) && Abs() == Next(old(Abs()), Inbound(f, v))
    {
      NextKeeps(Abs(), Inbound(f, v));
      Turn(f, v);
    }
  }
}
