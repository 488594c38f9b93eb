/**
 Cutting a request body into DATA frames: writeData and WriteTunnelData. Other threads
 move the windows between two turns of the loop, so every turn is given what it finds.
 */
module BodyWriter {
  import ConnMachine

  type Bytes = seq<nat>

  /** The bits of a frame's flag octet that matter here. */
  datatype Flag = EndStream | EndHeaders | Padded

  /** What one turn of the loop loads, and whether its write would succeed. */
  datatype Look = Look(closed: bool, serverWin: int, streamWin: int, maxFrame: nat, writeOk: bool)

  /** A DATA frame on the wire; `turn` is the turn that chose its size. */
  datatype DataFrame = DataFrame(flags: set<Flag>, payload: Bytes, turn: nat)

  /** `Waiting` is the state after the last given turn, when the body is not done. */
  datatype Outcome = Success | StreamClosed | WriteFailed | Waiting

  predicate EndsStream(f: DataFrame) {
    EndStream in f.flags
  }

  function Payloads(fs: seq<DataFrame>): Bytes {
    if fs == [] then [] else Payloads(fs[..|fs| - 1]) + fs[|fs| - 1].payload
  }

  lemma PayloadsSnoc(fs: seq<DataFrame>, f: DataFrame)
    ensures Payloads(fs + [f]) == Payloads(fs) + f.payload
  {
    assert (fs + [f])[..|fs + [f]| - 1] == fs;
  }

  /** The frame is not empty and respected the peer's frame size and both windows when it was chosen. */
  predicate WithinLimits(f: DataFrame, looks: seq<Look>) {
    && f.turn < |looks|
    && 0 < |f.payload|
    && |f.payload| <= looks[f.turn].serverWin
    && |f.payload| <= looks[f.turn].streamWin
    && |f.payload| <= (if looks[f.turn].maxFrame == 0 then 16384 else looks[f.turn].maxFrame)
  }

  /** The frames sent so far carry body[..offset], were chosen in earlier turns, and add at most END_STREAM. */
  ghost predicate Carried(fs: seq<DataFrame>, body: Bytes, offset: nat, flags0: set<Flag>, looks: seq<Look>, turn: nat)
    requires offset <= |body|
  {
    && Payloads(fs) == body[..offset]
    && (forall i | 0 <= i < |fs| :: WithinLimits(fs[i], looks) && fs[i].turn < turn)
    && (forall i | 0 <= i < |fs| :: fs[i].flags - {EndStream} == flags0 - {EndStream})
    && (forall i, j | 0 <= i < j < |fs| :: fs[i].turn < fs[j].turn)
  }

  ghost predicate EndsOnlyAtLast(fs: seq<DataFrame>, ended: bool) {
    forall i | 0 <= i < |fs| :: EndsStream(fs[i]) <==> ended && i == |fs| - 1
  }

  lemma CarriedMore(fs: seq<DataFrame>, f: DataFrame, body: Bytes, offset: nat, end: nat, flags0: set<Flag>,
                    looks: seq<Look>)
    requires offset < end <= |body| && Carried(fs, body, offset, flags0, looks, f.turn)
    requires WithinLimits(f, looks) && f.payload == body[offset..end]
    requires f.flags - {EndStream} == flags0 - {EndStream}
    ensures Carried(fs + [f], body, end, flags0, looks, f.turn + 1)
  {
    assert (fs + [f])[..|fs + [f]| - 1] == fs;
    assert body[..offset] + body[offset..end] == body[..end];
  }

  /**
   The loop that writeData and WriteTunnelData share. The frame header's flags are only ever
   added to, so `flags` is carried from turn to turn; `last` says whether the frame that
   finishes the body ends the stream.
   */
  method SendBody(flags0: set<Flag>, body: Bytes, last: bool, looks: seq<Look>)
    returns (out: Outcome, frames: seq<DataFrame>)
    requires EndStream !in flags0
    ensures Payloads(frames) <= body
    ensures out.Success? <==> Payloads(frames) == body
    ensures forall i | 0 <= i < |frames| :: WithinLimits(frames[i], looks)
    ensures forall i | 0 <= i < |frames| :: frames[i].flags - {EndStream} == flags0 - {EndStream}
    ensures forall i, j | 0 <= i < j < |frames| :: frames[i].turn < frames[j].turn
    ensures EndsOnlyAtLast(frames, last && out.Success?)
  {
    var offset := 0;
    var flags := flags0;
    var turn := 0;
    frames := [];
    while offset < |body|
      invariant 0 <= offset <= |body| && turn <= |looks|
      invariant Carried(frames, body, offset, flags0, looks, turn)
      invariant flags - {EndStream} == flags0 - {EndStream}
      invariant offset < |body| ==> EndStream !in flags
      invariant EndsOnlyAtLast(frames, last && offset == |body|)
      decreases |looks| - turn
    {
      if turn == |looks| {
        return Waiting, frames;
      }
      var l := looks[turn];
      turn := turn + 1;
      if l.closed {
        return StreamClosed, frames;
      }
      var chunkSize := ConnMachine.ChunkSize(|body| - offset, l.serverWin, l.streamWin, l.maxFrame);
      if chunkSize == 0 {
        continue;
      }
      if !l.writeOk {
        return WriteFailed, frames;
      }
      var end := offset + chunkSize;
      if last && end == |body| {
        flags := flags + {EndStream};
      }
      var f := DataFrame(flags, body[offset..end], turn - 1);
      CarriedMore(frames, f, body, offset, end, flags0, looks);
      frames := frames + [f];
      offset := end;
    }
    assert body[..offset] == body;
    out := Success;
  }

  /**
   writeData: on success the DATA payloads are the body, END_STREAM is on the last frame and
   on no other, and each frame was within the peer's limits when it was chosen; without
   success END_STREAM was never sent. The frame header is the one the HEADERS frame used, so
   its END_HEADERS bit goes out on every DATA frame.
   */
  method WriteData(body: Bytes, looks: seq<Look>) returns (out: Outcome, frames: seq<DataFrame>)
    requires body != []
    ensures out.Success? <==> Payloads(frames) == body
    ensures Payloads(frames) <= body
    ensures forall i | 0 <= i < |frames| :: WithinLimits(frames[i], looks)
    ensures forall i | 0 <= i < |frames| ::
              frames[i].flags == if out.Success? && i == |frames| - 1 then {EndHeaders, EndStream} else {EndHeaders}
    ensures out.Success? ==> frames != []
  {
    out, frames := SendBody({EndHeaders}, body, true, looks);
    forall i | 0 <= i < |frames|
      ensures frames[i].flags == if out.Success? && i == |frames| - 1 then {EndHeaders, EndStream} else {EndHeaders}
    {
      assert frames[i].flags - {EndStream} == {EndHeaders};
      assert EndsStream(frames[i]) <==> out.Success? && i == |frames| - 1;
    }
  }

  /** WriteTunnelData: an empty body with `endStream` still sends one empty frame that ends the stream. */
  method WriteTunnelData(body: Bytes, endStream: bool, first: Look, looks: seq<Look>)
    returns (out: Outcome, frames: seq<DataFrame>)
    ensures out.Success? ==> Payloads(frames) == body
    ensures body != [] && Payloads(frames) == body ==> out.Success?
    ensures Payloads(frames) <= body
    ensures body != [] ==> forall i | 0 <= i < |frames| :: WithinLimits(frames[i], looks)
    ensures body == [] ==> frames == if endStream && out.Success? then [DataFrame({EndStream}, [], 0)] else []
    ensures forall i | 0 <= i < |frames| ::
              frames[i].flags == if endStream && out.Success? && i == |frames| - 1 then {EndStream} else {}
    ensures out.Success? && endStream ==> frames != []
  {
    if first.closed {
      return StreamClosed, [];
    }
    if body == [] {
      if !endStream {
        return Success, [];
      }
      if !first.writeOk {
        return WriteFailed, [];
      }
      frames := [DataFrame({EndStream}, [], 0)];
      PayloadsSnoc([], frames[0]);
      assert [] + frames == frames;
      return Success, frames;
    }
    out, frames := SendBody({}, body, endStream, looks);
    forall i | 0 <= i < |frames|
      ensures frames[i].flags == if endStream && out.Success? && i == |frames| - 1 then {EndStream} else {}
    {
      assert frames[i].flags - {EndStream} == {};
      assert EndsStream(frames[i]) <==> endStream && out.Success? && i == |frames| - 1;
    }
  }
}
