/**
 How streams end, told from the frames that arrived, the answers of the handlers, and the streams opened and
 dropped: which frame finishes a stream, with success or not, and what ends the read loop. Nothing of the read
 loop's own state is used to say it.
 */
module StreamEnds {
  import opened ReadLoop

  // ---- The frames so far ----

  function Inbounds(past: seq<Event>): seq<Frame> {
    if past == [] then []
    else
      var e := past[|past| - 1];
      Inbounds(past[..|past| - 1]) + if e.Inbound? then [e.f] else []
  }

  predicate IsControl(f: Frame) {
    f.kind.Reset? || f.kind.WindowUpdate? || f.kind.PushPromise? || f.kind.Extension?
  }

  /** The last `n` frames are control frames. */
  predicate EndsInControl(fs: seq<Frame>, n: nat) {
    n <= |fs| && forall i | |fs| - n <= i < |fs| :: IsControl(fs[i])
  }

  /** A block is cut into a HEADERS frame and CONTINUATION frames; END_HEADERS is on the last of them. */
  predicate Fragment(f: Frame) {
    (f.kind.Headers? || f.kind.Continuation?) && !f.endHeaders
  }

  predicate LastFragment(f: Frame) {
    (f.kind.Headers? || f.kind.Continuation?) && f.endHeaders
  }

  /** Section 6.10 of RFC 9113: a fragment is followed by a CONTINUATION on its stream, and nothing else is. */
  predicate OutOfOrder(fs: seq<Frame>, f: Frame) {
    if fs != [] && Fragment(fs[|fs| - 1]) then !(f.kind.Continuation? && f.stream == fs[|fs| - 1].stream)
    else f.kind.Continuation?
  }

  /** More than a thousand control frames in a row. */
  predicate Flood(fs: seq<Frame>, f: Frame) {
    IsControl(f) && EndsInControl(fs, 1000)
  }

  predicate Handled(past: seq<Event>, e: Event) {
    e.Inbound? && !OutOfOrder(Inbounds(past), e.f) && !Flood(Inbounds(past), e.f)
  }

  // ---- The streams ----

  /** The stream was opened, and since then neither dropped nor finished. */
  predicate Alive(past: seq<Event>, id: nat)
    decreases |past|, 0
  {
    past != [] &&
    var before, e := past[..|past| - 1], past[|past| - 1];
    match e
    case Opened(stream) => stream == id || Alive(before, id)
    case Dropped(stream) => stream != id && Alive(before, id)
    case Inbound(f, _) => Alive(before, id) && (f.stream == id ==> !Finishes(before, e))
  }

  /** How far the response has come since the stream was opened: 0, 1 after a final status, 2 after trailers. */
  function Progress(past: seq<Event>, id: nat): (p: nat)
    ensures p <= 2
    decreases |past|, 0
  {
    if past == [] then 0
    else
      var before, e := past[..|past| - 1], past[|past| - 1];
      var p := Progress(before, id);
      match e
      case Opened(stream) => if stream == id then 0 else p
      case Dropped(_) => p
      case Inbound(f, v) =>
        if f.stream != id || !Handled(before, e) || !LastFragment(f) || !v.ok || !Alive(before, id) then p
        else if p > 0 then 2
        else if 100 <= v.status < 200 && v.status != 101 then 0
        else 1
  }

  /** An END_STREAM came with a fragment of the block that is still open. */
  predicate EndAhead(past: seq<Event>, id: nat)
    decreases |past|, 0
  {
    past != [] &&
    var before, e := past[..|past| - 1], past[|past| - 1];
    match e
    case Opened(stream) => stream != id && EndAhead(before, id)
    case Dropped(_) => EndAhead(before, id)
    case Inbound(f, _) =>
      if f.stream != id || !Handled(before, e) then EndAhead(before, id)
      else if Fragment(f) then EndAhead(before, id) || (f.endStream && Alive(before, id))
      else !LastFragment(f) && EndAhead(before, id)
  }

  /** The frame is an error of its stream. */
  predicate Faulty(past: seq<Event>, f: Frame, v: Verdict)
    decreases |past|, 1
  {
    || f.kind.Reset?
    || ((f.kind.Data? || LastFragment(f)) && Progress(past, f.stream) == 2)
    || ((f.kind.WindowUpdate? || f.kind.PushPromise? || LastFragment(f)) && !v.ok)
  }

  /** The frame, or the block that it completes, carries END_STREAM. */
  predicate Last(past: seq<Event>, f: Frame)
    decreases |past|, 1
  {
    !Fragment(f) && (f.endStream || (LastFragment(f) && EndAhead(past, f.stream)))
  }

  predicate Finishes(past: seq<Event>, e: Event)
    decreases |past|, 2
  {
    Handled(past, e) && e.f.stream != 0 && Alive(past, e.f.stream) && (Faulty(past, e.f, e.v) || Last(past, e.f))
  }

  /** The finish calls, in order: with success exactly if the frame is not an error. */
  function Endings(past: seq<Event>): seq<FinishCall> {
    if past == [] then []
    else
      var before, e := past[..|past| - 1], past[|past| - 1];
      Endings(before)
      + if Finishes(before, e) then [FinishCall(e.f.stream, !Faulty(before, e.f, e.v), false)] else []
  }

  /** What ends the read loop: a frame out of order, a flood, or an error that is not one of a live stream. */
  predicate Fatal(past: seq<Event>, e: Event) {
    && e.Inbound?
    && (|| !Handled(past, e)
        || (!e.v.ok && (e.f.stream == 0 || (LastFragment(e.f) && !Alive(past, e.f.stream)))))
  }

  predicate Failed(past: seq<Event>) {
    past != [] && (Failed(past[..|past| - 1]) || Fatal(past[..|past| - 1], past[|past| - 1]))
  }

  // ---- The read loop agrees ----

  /** What the loop remembers of the frames. */
  ghost predicate FramesMatch(s: State, past: seq<Event>) {
    var fs := Inbounds(past);
    && (s.continuationStream == if fs != [] && Fragment(fs[|fs| - 1]) then fs[|fs| - 1].stream else 0)
    && (fs != [] && Fragment(fs[|fs| - 1]) ==> fs[|fs| - 1].stream != 0)
    && forall n: nat :: n <= s.controlFrames <==> EndsInControl(fs, n)
  }

  ghost predicate StreamMatches(s: State, past: seq<Event>, id: nat) {
    && (id in s.live <==> Alive(past, id))
    && (id in s.live ==>
          && (s.live[id].headersParsed <==> Progress(past, id) >= 1)
          && (s.live[id].trailersReceived <==> Progress(past, id) == 2)
          && (s.live[id].endStreamPending <==> EndAhead(past, id)))
  }

  ghost predicate Matches(s: State, past: seq<Event>) {
    && (s.failed <==> Failed(past))
    && (!s.failed ==> FramesMatch(s, past))
    && (0 !in s.live)
    && (forall id: nat | id in s.live && s.live[id].endStreamPending :: id == s.continuationStream)
    && (forall id: nat :: StreamMatches(s, past, id))
    && s.finished == Endings(past)
  }

  lemma Before(past: seq<Event>, e: Event)
    ensures (past + [e])[..|past + [e]| - 1] == past && (past + [e])[|past + [e]| - 1] == e
  {
  }

  lemma OneMoreFrame(fs: seq<Frame>, f: Frame, c: nat, n: nat)
    requires forall m: nat :: m <= c <==> EndsInControl(fs, m)
    ensures n <= (if IsControl(f) then c + 1 else 0) <==> EndsInControl(fs + [f], n)
  {
    var gs := fs + [f];
    if 0 < n <= |gs| {
      assert EndsInControl(gs, n) <==> IsControl(f) && EndsInControl(fs, n - 1) by {
        assert gs[|gs| - 1] == f;
        assert forall i | 0 <= i < |fs| :: gs[i] == fs[i];
      }
    } else if n > 0 {
      assert !EndsInControl(fs, n - 1);
    }
  }

  lemma FramesMatchNext(s: State, past: seq<Event>, f: Frame, v: Verdict)
    requires FramesMatch(s, past) && Handled(past, Inbound(f, v)) && (CarriesHeaders(f) ==> f.stream != 0)
    ensures Allowed(s.continuationStream, f) && CountControl(s.controlFrames, f) <= MAX_CONTROL_FRAMES
    ensures FramesMatch(Receive(s, f, v), past + [Inbound(f, v)])
  {
    var fs := Inbounds(past);
    Before(past, Inbound(f, v));
    assert Inbounds(past + [Inbound(f, v)]) == fs + [f];
    forall n: nat
      ensures n <= CountControl(s.controlFrames, f) <==> EndsInControl(fs + [f], n)
    {
      OneMoreFrame(fs, f, s.controlFrames, n);
    }
    assert EndsInControl(fs, 1000) <==> 1000 <= s.controlFrames;
  }

  lemma FatalFrames(s: State, past: seq<Event>, f: Frame, v: Verdict)
    requires FramesMatch(s, past) && !Handled(past, Inbound(f, v))
    ensures Receive(s, f, v) == Fail(s.(controlFrames := Receive(s, f, v).controlFrames))
  {
    assert EndsInControl(Inbounds(past), 1000) <==> 1000 <= s.controlFrames;
  }

  /** A frame says nothing about other streams. */
  lemma OtherStreams(past: seq<Event>, f: Frame, v: Verdict, id: nat)
    requires f.stream != id
    ensures var now := past + [Inbound(f, v)];
            && Alive(now, id) == Alive(past, id) && Progress(now, id) == Progress(past, id)
            && EndAhead(now, id) == EndAhead(past, id)
  {
    Before(past, Inbound(f, v));
  }

  lemma EndingsMore(past: seq<Event>, f: Frame, v: Verdict)
    ensures Endings(past + [Inbound(f, v)])
            == Endings(past) + if Finishes(past, Inbound(f, v)) then [FinishCall(f.stream, !Faulty(past, f, v), false)]
                               else []
  {
    Before(past, Inbound(f, v));
  }

  /** What a frame says about its own stream. */
  lemma OwnStream(past: seq<Event>, f: Frame, v: Verdict)
    ensures var now, id := past + [Inbound(f, v)], f.stream;
            && Alive(now, id) == (Alive(past, id) && !Finishes(past, Inbound(f, v)))
            && (!LastFragment(f) ==> Progress(now, id) == Progress(past, id))
            && (!CarriesHeaders(f) ==> EndAhead(now, id) == EndAhead(past, id))
  {
    Before(past, Inbound(f, v));
  }

  /** The step for a frame, as far as it concerns the frame's own stream and the finish calls. */
  ghost predicate OwnMatches(s: State, past: seq<Event>, t: State, f: Frame, v: Verdict) {
    && StreamMatches(t, past + [Inbound(f, v)], f.stream)
    && t.finished == Endings(past + [Inbound(f, v)])
    && (t.failed <==> Fatal(past, Inbound(f, v)))
    && (f.stream in t.live && t.live[f.stream].endStreamPending ==> f.stream == t.continuationStream)
    && (forall id | id != f.stream :: id in t.live <==> id in s.live)
    && (forall id | id != f.stream && id in s.live :: t.live[id] == s.live[id])
  }

  lemma OtherFrame(s: State, past: seq<Event>, f: Frame, v: Verdict)
    requires Matches(s, past) && !s.failed && Handled(past, Inbound(f, v)) && !CarriesHeaders(f)
    ensures OwnMatches(s, past, Receive(s, f, v), f, v)
  {
    FramesMatchNext(s, past, f, v);
    EndingsMore(past, f, v);
    OwnStream(past, f, v);
    assert StreamMatches(s, past, f.stream);
  }

  lemma FragmentFrame(s: State, past: seq<Event>, f: Frame, v: Verdict)
    requires Matches(s, past) && !s.failed && Handled(past, Inbound(f, v)) && Fragment(f) && f.stream != 0
    ensures OwnMatches(s, past, Receive(s, f, v), f, v)
  {
    FramesMatchNext(s, past, f, v);
    EndingsMore(past, f, v);
    OwnStream(past, f, v);
    Before(past, Inbound(f, v));
    assert StreamMatches(s, past, f.stream);
  }

  lemma BlockFrame(s: State, past: seq<Event>, f: Frame, v: Verdict)
    requires Matches(s, past) && !s.failed && Handled(past, Inbound(f, v)) && LastFragment(f) && f.stream != 0
    ensures OwnMatches(s, past, Receive(s, f, v), f, v)
  {
    FramesMatchNext(s, past, f, v);
    EndingsMore(past, f, v);
    OwnStream(past, f, v);
    Before(past, Inbound(f, v));
    assert StreamMatches(s, past, f.stream);
  }

  lemma UnhandledFrame(s: State, past: seq<Event>, f: Frame, v: Verdict)
    requires Matches(s, past) && !s.failed && !Handled(past, Inbound(f, v))
    ensures OwnMatches(s, past, Receive(s, f, v), f, v)
  {
    FatalFrames(s, past, f, v);
    EndingsMore(past, f, v);
    Before(past, Inbound(f, v));
    assert StreamMatches(s, past, f.stream);
  }

  lemma ReceiveMatches(s: State, past: seq<Event>, f: Frame, v: Verdict)
    requires Matches(s, past) && Admissible(s, Inbound(f, v))
    ensures Matches(Receive(s, f, v), past + [Inbound(f, v)])
  {
    var t, now := Receive(s, f, v), past + [Inbound(f, v)];
    if !Handled(past, Inbound(f, v)) {
      UnhandledFrame(s, past, f, v);
    } else {
      FramesMatchNext(s, past, f, v);
      if !CarriesHeaders(f) {
        OtherFrame(s, past, f, v);
      } else if f.endHeaders {
        BlockFrame(s, past, f, v);
      } else {
        FragmentFrame(s, past, f, v);
      }
    }
    OwnThenAll(s, past, t, f, v);
  }

  lemma OwnThenAll(s: State, past: seq<Event>, t: State, f: Frame, v: Verdict)
    requires Matches(s, past) && !s.failed && OwnMatches(s, past, t, f, v) && 0 !in t.live
    requires !t.failed ==> FramesMatch(t, past + [Inbound(f, v)])
    requires t.continuationStream != s.continuationStream ==>
               && (t.continuationStream == f.stream || t.continuationStream == 0)
               && (s.continuationStream == 0 || s.continuationStream == f.stream)
    ensures Matches(t, past + [Inbound(f, v)])
  {
    var now := past + [Inbound(f, v)];
    Before(past, Inbound(f, v));
    forall id: nat
      ensures StreamMatches(t, now, id)
    {
      if id != f.stream {
        OtherStreams(past, f, v, id);
        assert StreamMatches(s, past, id);
      }
    }
  }

  lemma OpenedMatches(s: State, past: seq<Event>, stream: nat)
    requires Matches(s, past) && Admissible(s, Opened(stream))
    ensures Matches(Next(s, Opened(stream)), past + [Opened(stream)])
  {
    var t, now := Next(s, Opened(stream)), past + [Opened(stream)];
    Before(past, Opened(stream));
    assert Inbounds(now) == Inbounds(past);
    forall id: nat
      ensures StreamMatches(t, now, id)
    {
      assert StreamMatches(s, past, id);
    }
  }

  lemma DroppedMatches(s: State, past: seq<Event>, stream: nat)
    requires Matches(s, past)
    ensures Matches(Next(s, Dropped(stream)), past + [Dropped(stream)])
  {
    var t, now := Next(s, Dropped(stream)), past + [Dropped(stream)];
    Before(past, Dropped(stream));
    assert Inbounds(now) == Inbounds(past);
    forall id: nat
      ensures StreamMatches(t, now, id)
    {
      assert StreamMatches(s, past, id);
    }
  }

  lemma NextMatches(s: State, past: seq<Event>, e: Event)
    requires Matches(s, past) && Admissible(s, e)
    ensures Matches(Next(s, e), past + [e])
  {
    match e
    case Inbound(f, v) => ReceiveMatches(s, past, f, v);
    case Opened(stream) => OpenedMatches(s, past, stream);
    case Dropped(stream) => DroppedMatches(s, past, stream);
  }

  lemma {:induction false} RunMatches(s: State, past: seq<Event>, es: seq<Event>, t: State)
    requires Matches(s, past) && Run(s, es, t)
    ensures Matches(t, past + es)
    decreases |es|
  {
    if es == [] {
      assert past + es == past;
    } else {
      NextMatches(s, past, es[0]);
      RunMatches(Next(s, es[0]), past + [es[0]], es[1..], t);
      assert past + es == (past + [es[0]]) + es[1..];
    }
  }

  /**
   Over every run: the finish calls are the ones that the frames and answers call for, the streams that are live
   are the ones opened and neither dropped nor finished, and the loop has failed exactly if a frame was fatal.
   */
  lemma StreamsEndRightly(es: seq<Event>, t: State)
    requires Run(Start, es, t)
    ensures t.finished == Endings(es)
    ensures forall id: nat :: id in t.live <==> Alive(es, id)
    ensures t.failed <==> Failed(es)
  {
    assert Inbounds([]) == [] && Endings([]) == [];
    assert Matches(Start, []);
    RunMatches(Start, [], es, t);
    assert [] + es == es;
    forall id: nat
      ensures id in t.live <==> Alive(es, id)
    {
      assert StreamMatches(t, es, id);
    }
  }
}
