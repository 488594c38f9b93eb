/** The frame header object: serializing a body into it, writing it out, and reading the next frame. */
module H2FrameHeader {
  import opened Common
  import opened Octets
  import opened Bufio
  import opened H2Wire
  import opened H2Settings
  import opened H2Frames

  class FrameHeader {
    var length: nat
    var kind: Octet
    var flags: Flags
    var stream: Uint32
    var maxLen: nat
    var payload: Bytes
    const rawHeader: array<Octet>

    constructor ()
      ensures flags == 0 && stream == 0 && payload == [] && maxLen == 16384 && rawHeader.Length == 9 && fresh(rawHeader)
    {
      length, kind, flags, stream, maxLen, payload := 0, 0, 0, 0, 16384, [];
      rawHeader := new Octet[9](_ => 0);
    }

    /** parseHeader: the nine bytes are written in place. */
    method PackHeader()
      requires rawHeader.Length == 9
      modifies rawHeader
      ensures rawHeader[..] == HeadBytes(Head(length, kind, flags, stream))
    {
      rawHeader[0], rawHeader[1], rawHeader[2] := Low(length / 256 / 256), Low(length / 256), Low(length);
      rawHeader[3] := kind;
      rawHeader[4] := flags as int;
      rawHeader[5], rawHeader[6] := Low(stream / 256 / 256 / 256), Low(stream / 256 / 256);
      rawHeader[7], rawHeader[8] := Low(stream / 256), Low(stream);
    }

    method AddFlag(c: bool, bit: Flags)
      modifies this`flags
      ensures flags == AddIf(old(flags), c, bit)
    {
      if c {
        flags := flags | bit;
      }
    }

    method SerializeData(b: Body)
      requires b.Data?
      modifies this`flags, this`payload
      ensures flags == FlagsOf(b, old(flags)) && payload == PayloadOf(b)
    {
      AddFlag(b.endStream, END_STREAM);
      payload := [];
      AddFlag(b.padded, PADDED);
      if b.padded {
        payload := payload + [0];
      }
      payload := payload + b.data;
    }

    method SerializeHeaders(b: Body)
      requires b.Headers?
      modifies this`flags, this`payload
      ensures flags == FlagsOf(b, old(flags)) && payload == PayloadOf(b)
    {
      AddFlag(b.endStream, END_STREAM);
      AddFlag(b.endHeaders, END_HEADERS);
      payload := [];
      AddFlag(b.padded, PADDED);
      if b.padded {
        payload := payload + [0];
      }
      AddFlag(b.priority.Some?, PRIORITIZED);
      if b.priority.Some? {
        AppendDependency(b.priority.value);
      }
      payload := payload + b.block;
      assert payload == PayloadOf(b);
      if b.padded && |payload| > 0 {
        assert payload[0] == 0;
        payload := payload[0 := 0];
      }
    }

    method AppendDependency(d: Dependency)
      modifies this`payload
      ensures payload == old(payload) + DependencyBytes(d)
    {
      var priBuf := Bytes32(d.stream);
      if d.exclusive {
        priBuf := WithTopBit(priBuf);
      }
      payload := payload + (priBuf + [d.weight]);
    }

    /** Serialize of the body's kind. */
    method Serialize(b: Body)
      modifies this`flags, this`payload
      ensures flags == FlagsOf(b, old(flags)) && payload == PayloadOf(b)
    {
      match b {
        case Data(_, _, _) => SerializeData(b);
        case Headers(_, _, _, _, _) => SerializeHeaders(b);
        case Priority(d) => payload := DependencyBytes(d);
        case RstStream(code) => payload := Bytes32(code);
        case SettingsBody(ack, p) =>
          AddFlag(ack, ACK);
          payload := [];
          if !ack {
            var st := new Settings();
            st.p := p;
            st.Encode();
            payload := st.rawSettings;
          }
        case PushPromise(_, promised, block) =>
          payload := Bytes32(promised);
          payload := payload + block;
        case Ping(ack, data) =>
          AddFlag(ack, ACK);
          payload := data;
        case GoAway(last, code, debug) =>
          payload := Bytes32(last);
          payload := payload + Bytes32(code);
          payload := payload + debug;
          assert payload == Bytes32(last) + (Bytes32(code) + debug);
        case WindowUpdate(n) => payload := Bytes32(ToUint32(n));
        case Continuation(endHeaders, block) =>
          AddFlag(endHeaders, END_HEADERS);
          payload := block;
      }
    }

    /** SetBody and WriteTo: the bytes of the frame are appended to what was written. */
    method WriteTo(b: Body, w: Bytes) returns (out: Bytes)
      requires rawHeader.Length == 9
      modifies this, rawHeader
      ensures out == w + Wire(Raw(KindOf(b), FlagsOf(b, old(flags)), stream, PayloadOf(b)))
      ensures stream == old(stream) && flags == FlagsOf(b, old(flags))
    {
      kind := KindOf(b);
      Serialize(b);
      length := |payload|;
      PackHeader();
      out := w + rawHeader[..];
      out := out + payload;
      assert out == w + (rawHeader[..] + payload);
    }

    /** readFrom: one frame, or no frame when the input ends first. */
    method ReadFrom(r: Reader) returns (o: Option<Outcome>)
      requires r.size >= 9
      modifies this, r
      ensures o.Some? ==> FrameRead(o.value, r.rest) == ReadFrame(old(r.rest), maxLen)
      ensures o.None? ==> ReadFrame(old(r.rest), maxLen) == Starved
      ensures maxLen == old(maxLen)
    {
      var head := r.Peek(9);
      if head.None? {
        return None;
      }
      ghost var rest := r.rest;
      var _ := r.Discard(9);
      var h := ParseHead(head.value);
      HeadPrefix(rest);
      length, kind, flags, stream := h.length, h.kind, h.flags, h.stream;
      if maxLen != 0 && length > maxLen {
        var ok := r.Discard(length);
        return if ok then Some(Bad(PayloadExceeds)) else None;
      }
      if kind > CONTINUATION {
        var ok := r.Discard(length);
        return if ok then Some(Unknown(kind, flags, stream)) else None;
      }
      var data := r.ReadFull(length);
      if data.None? {
        return None;
      }
      payload := data.value;
      var b := Parse(kind, flags, stream, payload);
      o := Some(if b.Ok? then Frame(stream, flags, b.value) else Bad(b.error));
    }
  }

  /** Writing out traffic: every frame of ours with a fresh header, foreign ones as they are. */
  method SendAll(ts: seq<Traffic>) returns (w: Bytes)
    ensures w == WireAll(RawsOf(ts))
  {
    w := [];
    for i := 0 to |ts|
      invariant w == WireAll(RawsOf(ts[..i]))
    {
      if ts[i].Ours? {
        var h := new FrameHeader();
        h.stream := ts[i].sent.stream;
        w := h.WriteTo(ts[i].sent.body, w);
      } else {
        w := w + Wire(ts[i].raw);
      }
      WireSnoc(RawsOf(ts[..i]), RawOf(ts[i]));
      RawsSnoc(ts[..i], ts[i]);
      assert ts[..i + 1] == ts[..i] + [ts[i]];
    }
    assert ts[..|ts|] == ts;
  }

  lemma {:induction false} RawsSnoc(ts: seq<Traffic>, t: Traffic)
    ensures RawsOf(ts + [t]) == RawsOf(ts) + [RawOf(t)]
  {
    if ts == [] {
      assert ts + [t] == [t] && [t][1..] == [];
    } else {
      assert (ts + [t])[1..] == ts[1..] + [t];
      RawsSnoc(ts[1..], t);
    }
  }

  lemma {:induction false} WireSnoc(fs: seq<Raw>, f: Raw)
    ensures WireAll(fs + [f]) == WireAll(fs) + Wire(f)
  {
    if fs == [] {
      assert fs + [f] == [f] && [f][1..] == [];
    } else {
      assert (fs + [f])[1..] == fs[1..] + [f];
      WireSnoc(fs[1..], f);
    }
  }

  /** Reading frames until the input is used up. */
  method ReceiveAll(data: Bytes, size: nat, maxLen: nat) returns (os: seq<Outcome>)
    requires size >= 9
    ensures os == ReadAll(data, maxLen)
  {
    var r := new Reader(data, size);
    var h := new FrameHeader();
    h.maxLen := maxLen;
    os := [];
    while true
      invariant h.maxLen == maxLen && os + ReadAll(r.rest, maxLen) == ReadAll(data, maxLen)
      decreases |r.rest|
    {
      ghost var before := r.rest;
      var o := h.ReadFrom(r);
      if o.None? {
        return;
      }
      ReadAllStep(os, o.value, before, r.rest, maxLen);
      os := os + [o.value];
    }
  }

  lemma ReadAllStep(os: seq<Outcome>, o: Outcome, before: Bytes, after: Bytes, maxLen: nat)
    requires ReadFrame(before, maxLen) == FrameRead(o, after)
    ensures (os + [o]) + ReadAll(after, maxLen) == os + ReadAll(before, maxLen)
  {
    assert ReadAll(before, maxLen) == [o] + ReadAll(after, maxLen);
  }

  /** Header objects on both ends: what was sent is what is received, in order and field for field. */
  method Exchange(ts: seq<Traffic>, size: nat, maxLen: nat) returns (os: seq<Outcome>)
    requires size >= 9 && forall i | 0 <= i < |ts| :: Sendable(ts[i])
    ensures os == ExpectedAll(ts, maxLen)
  {
    var w := SendAll(ts);
    TrafficRoundTrip(ts, maxLen);
    os := ReceiveAll(w, size, maxLen);
  }
}
