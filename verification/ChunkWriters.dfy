/**
 The two writers of chunked transfer coding and their round trips through the decoders. The writer of
 proto/h1 ends a body with an empty trailer section; the one of proto/http stops before the trailer.
 */
module ChunkWriters {
  import opened Common
  import opened Octets
  import opened Bufio
  import opened ChunkStream
  import opened ChunkLenient
  import ChunkStrict

  function Concat(ps: seq<Bytes>): Bytes {
    if ps == [] then [] else ps[0] + Concat(ps[1..])
  }

  /** The chunks of a list of writes; empty writes leave nothing. */
  function Encoded(ps: seq<Bytes>): Bytes {
    if ps == [] then [] else (if ps[0] == [] then [] else Chunk(ps[0])) + Encoded(ps[1..])
  }

  lemma {:induction false} EncodedSnoc(ps: seq<Bytes>, p: Bytes)
    ensures Encoded(ps + [p]) == Encoded(ps) + if p == [] then [] else Chunk(p)
  {
    if ps == [] {
      assert ps + [p] == [p] && [p][1..] == [];
    } else {
      assert (ps + [p])[1..] == ps[1..] + [p];
      EncodedSnoc(ps[1..], p);
    }
  }

  lemma Assoc(a: Bytes, b: Bytes, c: Bytes)
    ensures (a + b) + c == a + (b + c)
  {
  }

  // ---- The writers ----

  class ChunkedWriter {
    var w: Bytes

    constructor ()
      ensures w == []
    {
      w := [];
    }

    method Write(p: Bytes)
      modifies this
      ensures w == old(w) + if p == [] then [] else Chunk(p)
    {
      if |p| == 0 {
        return;
      }
      ghost var was := w;
      w := w + HexOf(|p|);
      w := w + CRLF;
      w := w + p;
      w := w + CRLF;
      assert w == was + Chunk(p);
    }

    method Close()
      modifies this
      ensures w == old(w) + (SizeLine(0) + CRLF)
    {
      w := w + [48, CR, LF, CR, LF];
      assert SizeLine(0) == [48, CR, LF];
    }

    /** Any list of writes. */
    method WriteAll(ps: seq<Bytes>)
      modifies this
      ensures w == old(w) + Encoded(ps)
    {
      ghost var was := w;
      for i := 0 to |ps|
        invariant w == was + Encoded(ps[..i])
      {
        Write(ps[i]);
        EncodedSnoc(ps[..i], ps[i]);
        assert ps[..i + 1] == ps[..i] + [ps[i]];
      }
      assert ps[..|ps|] == ps;
    }
  }

  /** writeChunk: an empty chunk is the last size line alone. */
  method WriteChunk(w: Bytes, b: Bytes) returns (r: Bytes)
    ensures r == w + if b == [] then SizeLine(0) else Chunk(b)
  {
    r := w + HexOf(|b|);
    r := r + CRLF;
    r := r + b;
    if |b| > 0 {
      r := r + CRLF;
      assert r == w + Chunk(b);
    } else {
      assert r == w + SizeLine(0);
    }
  }

  /** writeBodyChunked: `pieces` is what the body's Read calls return up to the end, empty reads included. */
  method WriteBodyChunked(w: Bytes, pieces: seq<Bytes>) returns (r: Bytes)
    ensures r == w + (Encoded(pieces) + SizeLine(0))
  {
    r := w;
    for i := 0 to |pieces|
      invariant r == w + Encoded(pieces[..i])
    {
      ghost var done := Encoded(pieces[..i]);
      EncodedSnoc(pieces[..i], pieces[i]);
      assert pieces[..i + 1] == pieces[..i] + [pieces[i]];
      if |pieces[i]| == 0 {
        assert done + [] == done;
        continue;
      }
      r := WriteChunk(r, pieces[i]);
      Assoc(w, done, Chunk(pieces[i]));
    }
    assert pieces[..|pieces|] == pieces;
    r := WriteChunk(r, []);
    Assoc(w, Encoded(pieces), SizeLine(0));
  }

  // ---- Round trips ----

  /** Size lines fit the reader's buffer. */
  predicate Fits(ps: seq<Bytes>, size: nat) {
    forall i | 0 <= i < |ps| :: |ps[i]| <= MAX_INT && |SizeLine(|ps[i]|)| <= size
  }

  lemma {:induction false} HexLength(n: nat, k: nat)
    requires k > 0 && n < Pow16(k)
    ensures |HexOf(n)| <= k
    decreases k
  {
    if n >= 16 {
      assert Pow16(1) == 16;
      HexLength(n / 16, k - 1);
    }
  }

  lemma ShortSizeLine(n: nat)
    requires n <= MAX_INT
    ensures |SizeLine(n)| <= 18
  {
    assert Pow16(4) == 0x1_0000;
    assert Pow16(8) == 0x1_0000 * Pow16(4);
    assert Pow16(12) == 0x1_0000 * Pow16(8);
    assert Pow16(16) == 0x1_0000 * Pow16(12);
    HexLength(n, 16);
  }

  /** A buffer of 18 bytes is always enough. */
  lemma AlwaysFits(ps: seq<Bytes>, size: nat)
    requires size >= 18 && forall i | 0 <= i < |ps| :: |ps[i]| <= MAX_INT
    ensures Fits(ps, size)
  {
    forall i | 0 <= i < |ps|
      ensures |SizeLine(|ps[i]|)| <= size
    {
      ShortSizeLine(|ps[i]|);
    }
  }

  /** Rules that read written size lines. */
  ghost predicate ReadsSizes<E>(rules: Rules<E>, size: nat) {
    forall n: nat, t: Bytes | 0 < n <= MAX_INT && |SizeLine(n)| <= size :: rules.start(SizeLine(n) + t) == Go(n, t)
  }

  lemma WrittenChunk<E>(rules: Rules<E>, size: nat, p: Bytes, later: Bytes)
    requires Sound(rules) && ReadsSizes(rules, size) && 0 < |p| <= MAX_INT && |SizeLine(|p|)| <= size
    ensures Stream(rules, Chunk(p) + later, 0) == Deliver(p, Stream(rules, later, 0))
  {
    ChunkAhead(p, later);
    OneChunk(rules, Chunk(p) + later, |p|, p + (CRLF + later));
  }

  lemma {:induction false} EncodedAhead<E>(rules: Rules<E>, size: nat, ps: seq<Bytes>, tail: Bytes)
    requires Sound(rules) && ReadsSizes(rules, size) && Fits(ps, size)
    ensures Stream(rules, Encoded(ps) + tail, 0) == Deliver(Concat(ps), Stream(rules, tail, 0))
    decreases |ps|
  {
    var t := Stream(rules, tail, 0);
    if ps == [] {
      assert Encoded(ps) + tail == tail;
      assert [] + t.body == t.body;
    } else {
      var p, later := ps[0], Encoded(ps[1..]) + tail;
      EncodedAhead(rules, size, ps[1..], tail);
      if p == [] {
        assert Encoded(ps) + tail == later;
        assert Concat(ps) == Concat(ps[1..]);
      } else {
        Assoc(Chunk(p), Encoded(ps[1..]), tail);
        WrittenChunk(rules, size, p, later);
        DeliverTwice(p, Concat(ps[1..]), t);
      }
    }
  }

  lemma LenientReadsSizes(size: nat)
    ensures ReadsSizes(Lenient(size), size)
  {
    forall n: nat, t: Bytes | 0 < n <= MAX_INT && |SizeLine(n)| <= size
      ensures Lenient(size).start(SizeLine(n) + t) == Go(n, t)
    {
      WrittenSize(n, t, size);
    }
  }

  /** What proto/http writes, its readers decode to the written bytes, stopping exactly where the trailer starts. */
  lemma HttpRoundTrip(ps: seq<Bytes>, trailer: Bytes, size: nat)
    requires Fits(ps, size) && size >= 3
    ensures Streaming(Encoded(ps) + (SizeLine(0) + trailer), size) == Streamed(Concat(ps), AtTrailer, trailer)
    ensures |Encoded(ps) + (SizeLine(0) + trailer)| <= MAX_INT ==>
              ReadBody(Encoded(ps) + (SizeLine(0) + trailer), size, 0, []) == Decoded(Concat(ps), None, trailer)
  {
    var last := SizeLine(0) + trailer;
    LenientReadsSizes(size);
    EncodedAhead(Lenient(size), size, ps, last);
    WrittenSize(0, trailer, size);
    assert Lenient(size).start(last) == Stop(AtTrailer, trailer);
    assert Concat(ps) + [] == Concat(ps);
    if |Encoded(ps) + last| <= MAX_INT {
      DecodersAgree(Encoded(ps) + last, size);
    }
  }

  /**
   Chunks without the last one: the stream delivers them and ends like a finished body, the whole-body
   decoder reports it.
   */
  lemma LenientCutLooksFinished(ps: seq<Bytes>, size: nat)
    requires Fits(ps, size) && size > 0
    ensures Streaming(Encoded(ps), size) == Streamed(Concat(ps), Failed(EndOfInput), [])
    ensures Reported(Streaming(Encoded(ps), size).end) == EndOfInput
    ensures ReadBody(Encoded(ps), size, 0, []).err.Some?
  {
    LenientReadsSizes(size);
    EncodedAhead(Lenient(size), size, ps, []);
    assert Encoded(ps) + [] == Encoded(ps);
    assert Lenient(size).start([]) == Stop(Failed(EndOfInput), []);
    assert Concat(ps) + [] == Concat(ps);
    if ReadBody(Encoded(ps), size, 0, []).err.None? {
      BatchThenStream(Encoded(ps), size, []);
    }
  }

  lemma StrictWrittenSize(n: nat, tail: Bytes, size: nat)
    requires n <= MAX_INT && |SizeLine(n)| <= size
    ensures ChunkStrict.ChunkLine(SizeLine(n) + tail, size) == ChunkStrict.Line(ChunkStrict.Ok(SizeLine(n)), tail)
    ensures ChunkStrict.SizeOf(SizeLine(n)) == ChunkStrict.Ok(n)
  {
    SizeLineRead(n, tail, size);
    ShortSizeLine(n);
    SizeLineText(n);
    NotIn(HexOf(n), SEMICOLON);
    HexRoundTrip(n);
  }

  lemma StrictReadsSizes(size: nat)
    requires size > 0
    ensures ReadsSizes(ChunkStrict.Strict(size), size)
  {
    forall n: nat, t: Bytes | 0 < n <= MAX_INT && |SizeLine(n)| <= size
      ensures ChunkStrict.Strict(size).start(SizeLine(n) + t) == Go(n, t)
    {
      StrictWrittenSize(n, t, size);
    }
  }

  lemma StrictLastChunk(tail: Bytes, size: nat)
    requires size >= 3
    ensures ChunkStrict.StartOf(SizeLine(0) + (CRLF + tail), size) == Stop(ChunkStrict.Complete, tail)
  {
    StrictWrittenSize(0, CRLF + tail, size);
    IndexAt(CRLF + tail, LF, 1);
    assert (CRLF + tail)[..2] == CRLF && (CRLF + tail)[2..] == tail;
  }

  /** What proto/h1 writes and closes, its reader decodes to the written bytes and leaves what follows untouched. */
  lemma H1RoundTrip(ps: seq<Bytes>, tail: Bytes, size: nat)
    requires Fits(ps, size) && size >= 3
    ensures ChunkStrict.Streaming(Encoded(ps) + (SizeLine(0) + (CRLF + tail)), size)
            == Streamed(Concat(ps), ChunkStrict.Complete, tail)
  {
    var last := SizeLine(0) + (CRLF + tail);
    StrictReadsSizes(size);
    EncodedAhead(ChunkStrict.Strict(size), size, ps, last);
    StrictLastChunk(tail, size);
    assert ChunkStrict.Strict(size).start(last) == Stop(ChunkStrict.Complete, tail);
    assert Concat(ps) + [] == Concat(ps);
  }

  /** Chunks without the last one: the strict reader delivers them and reports io.EOF, as for a complete body. */
  lemma StrictCutLooksFinished(ps: seq<Bytes>, size: nat)
    requires Fits(ps, size) && size > 0
    ensures ChunkStrict.Streaming(Encoded(ps), size)
            == Streamed(Concat(ps), ChunkStrict.Stopped(ChunkStrict.EndOfInput), [])
    ensures ChunkStrict.Reported(ChunkStrict.Streaming(Encoded(ps), size).end) == ChunkStrict.EndOfInput
  {
    StrictReadsSizes(size);
    EncodedAhead(ChunkStrict.Strict(size), size, ps, []);
    assert Encoded(ps) + [] == Encoded(ps);
    assert ChunkStrict.Strict(size).start([]) == Stop(ChunkStrict.Stopped(ChunkStrict.EndOfInput), []);
    assert Concat(ps) + [] == Concat(ps);
  }

  /** The same inside a chunk: what is there of it is delivered, and io.EOF reported, though bytes are missing. */
  lemma StrictCutInsideChunk(ps: seq<Bytes>, n: nat, data: Bytes, size: nat)
    requires Fits(ps, size) && size > 0 && |data| < n <= MAX_INT && |SizeLine(n)| <= size
    ensures ChunkStrict.Streaming(Encoded(ps) + (SizeLine(n) + data), size)
            == Streamed(Concat(ps) + data, ChunkStrict.Stopped(ChunkStrict.EndOfInput), [])
    ensures ReadBody(Encoded(ps) + (SizeLine(n) + data), size, 0, []).err.Some?
  {
    var cut := SizeLine(n) + data;
    StrictReadsSizes(size);
    EncodedAhead(ChunkStrict.Strict(size), size, ps, cut);
    assert ChunkStrict.Strict(size).start(cut) == Go(n, data);
    ChunkStrict.StrictThenLenient(Encoded(ps) + cut, size);
    if ReadBody(Encoded(ps) + cut, size, 0, []).err.None? {
      BatchThenStream(Encoded(ps) + cut, size, []);
    }
  }

  method WriteH1(ps: seq<Bytes>) returns (data: Bytes)
    ensures data == Encoded(ps) + (SizeLine(0) + CRLF)
  {
    var w := new ChunkedWriter();
    w.WriteAll(ps);
    w.Close();
    data := w.w;
  }

  method ReadH1(data: Bytes, size: nat) returns (body: Bytes, err: ChunkStrict.StrictError)
    requires size > 0
    ensures body == ChunkStrict.Streaming(data, size).body
    ensures err == ChunkStrict.Reported(ChunkStrict.Streaming(data, size).end)
  {
    var r := new Reader(data, size);
    var cr := new ChunkStrict.ChunkedReader(r);
    body, err := cr.ReadAll();
  }

  /** Writing and reading back: any writes, any reads, any arrival of the bytes. */
  method H1EndToEnd(ps: seq<Bytes>, size: nat) returns (body: Bytes, err: ChunkStrict.StrictError)
    requires Fits(ps, size) && size >= 3
    ensures body == Concat(ps) && err == ChunkStrict.EndOfInput
  {
    var data := WriteH1(ps);
    H1RoundTrip(ps, [], size);
    assert CRLF + [] == CRLF;
    body, err := ReadH1(data, size);
  }
}
