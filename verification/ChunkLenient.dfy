/**
 The lenient decoders of chunked transfer coding (section 7.1 of RFC 9112): one that reads a whole
 body and stops after the line of the last chunk, where the trailer section starts, and one that is
 read piece by piece and goes on with the trailer section. The latter also reads bodies without chunks.
 */
module ChunkLenient {
  import opened Common
  import opened Octets
  import opened Bufio
  import opened ChunkStream

  datatype ChunkError = EndOfInput | UnexpectedEof | BrokenChunk | TooLarge | SliceOutOfRange | BadTrailer

  // ---- The size line ----

  datatype Sized = Sized(size: nat, rest: Bytes) | Unsized(err: ChunkError, rest: Bytes)

  predicate EndsInCRLF(line: Bytes) {
    |line| >= 2 && line[|line| - 2] == CR && line[|line| - 1] == LF
  }

  /** The size that a line states, its extensions ignored. */
  function SizeOf(line: Bytes): Option<nat> {
    if !EndsInCRLF(line) then None
    else
      var text := line[..|line| - 2];
      ParseSize(TrimTrailing(text[..IndexOf(text, SEMICOLON)]))
  }

  function FromLine(line: Bytes, rest: Bytes): Sized {
    if SizeOf(line).None? then Unsized(BrokenChunk, rest) else Sized(SizeOf(line).value, rest)
  }

  /** parseChunkSize: when a line does not fit the buffer, what filled the buffer is dropped. */
  function ChunkSize(rest: Bytes, size: nat): (r: Sized)
    ensures r.Sized? ==> |r.rest| < |rest|
  {
    var s := ReadSliceOf(rest, size);
    assert |s.line + s.rest| == |rest|;
    if s.err == None then FromLine(s.line, s.rest)
    else if s.err == Some(Eof) then Unsized(EndOfInput, s.rest)
    else
      var f := ReadBytesOf(s.rest);
      assert |f.line + f.rest| == |s.rest|;
      if f.err.Some? then Unsized(BrokenChunk, f.rest) else FromLine(f.line, f.rest)
  }

  method LineSize(line: Bytes) returns (n: Option<nat>)
    ensures n == SizeOf(line)
  {
    if |line| < 2 || line[|line| - 2] != CR || line[|line| - 1] != LF {
      return None;
    }
    var text := line[..|line| - 2];
    var idx := IndexOf(text, SEMICOLON);
    n := ParseSize(TrimTrailing(text[..idx]));
  }

  method ParseChunkSize(r: Reader) returns (s: Sized)
    modifies r
    ensures s == ChunkSize(old(r.rest), r.size) && r.rest == s.rest
  {
    var line, err := r.ReadSlice();
    if err == Some(Eof) {
      return Unsized(EndOfInput, r.rest);
    }
    if err == Some(BufferFull) {
      line, err := r.ReadBytes();
      if err.Some? {
        return Unsized(BrokenChunk, r.rest);
      }
    }
    var n := LineSize(line);
    if n.None? {
      return Unsized(BrokenChunk, r.rest);
    }
    return Sized(n.value, r.rest);
  }

  // ---- A whole body ----

  datatype Decoded = Decoded(body: Bytes, err: Option<ChunkError>, rest: Bytes)

  /** Addition of two non-negative ints. */
  function WrapAdd(a: nat, b: nat): int {
    if a + b <= MAX_INT then a + b else a + b - 0x1_0000_0000_0000_0000
  }

  /** One chunk of `n` bytes and its line end, appended to `dst`. */
  function ReadChunk(rest: Bytes, n: nat, dst: Bytes): (r: Decoded)
    ensures r.err.None? ==> |r.rest| + n + 2 == |rest|
  {
    if |rest| < n + 2 then Decoded(dst + rest, Some(UnexpectedEof), [])
    else if rest[n..n + 2] != CRLF then Decoded(dst + rest[..n + 2], Some(BrokenChunk), rest[n + 2..])
    else Decoded(dst + rest[..n], None, rest[n + 2..])
  }

  /**
   ReadBodyChunked on the body read so far. When the sum of the lengths leaves the int range the
   limit is not noticed and the slice expression that follows panics.
   */
  function ReadBody(rest: Bytes, size: nat, limit: nat, dst: Bytes): Decoded
    decreases |rest|
  {
    var s := ChunkSize(rest, size);
    if s.Unsized? then Decoded(dst, Some(s.err), s.rest)
    else if s.size == 0 then Decoded(dst, None, s.rest)
    else if limit > 0 && WrapAdd(|dst|, s.size) > limit then Decoded(dst, Some(TooLarge), s.rest)
    else if |dst| + s.size + 2 > MAX_INT then Decoded(dst, Some(SliceOutOfRange), s.rest)
    else
      var c := ReadChunk(s.rest, s.size, dst);
      if c.err.Some? then c else ReadBody(c.rest, size, limit, c.body)
  }

  /** appendBodyFixedSize: the loop that fills `n` more bytes, however they arrive. */
  method AppendFixed(r: Reader, dst: Bytes, n: nat) returns (out: Bytes, err: Option<ChunkError>)
    modifies r
    ensures if n <= |old(r.rest)| then out == dst + old(r.rest)[..n] && err == None && r.rest == old(r.rest)[n..]
            else out == dst + old(r.rest) && err == Some(UnexpectedEof) && r.rest == []
  {
    out := dst;
    if n == 0 {
      return out, None;
    }
    ghost var data := r.rest;
    var offset := 0;
    while true
      invariant offset < n && offset <= |data| && out == dst + data[..offset] && r.rest == data[offset..]
      decreases n - offset
    {
      var piece, end := r.Read(n - offset);
      if end.Some? {
        assert data[..offset] == data;
        return out, Some(UnexpectedEof);
      }
      assert data[offset..][..|piece|] == piece;
      assert data[..offset + |piece|] == data[..offset] + piece;
      out := out + piece;
      offset := offset + |piece|;
      if offset == n {
        return out, None;
      }
    }
  }

  method AppendChunk(r: Reader, dst: Bytes, n: nat) returns (out: Bytes, err: Option<ChunkError>)
    modifies r
    ensures Decoded(out, err, r.rest) == ReadChunk(old(r.rest), n, dst)
  {
    ghost var data := r.rest;
    out, err := AppendFixed(r, dst, n + 2);
    if err.Some? {
      return;
    }
    assert out[|out| - 2..] == data[n..n + 2];
    if out[|out| - 2..] != CRLF {
      err := Some(BrokenChunk);
      return;
    }
    out := out[..|out| - 2];
    assert out == dst + data[..n];
  }

  method ReadBodyChunked(r: Reader, limit: nat) returns (d: Decoded)
    modifies r
    ensures d == ReadBody(old(r.rest), r.size, limit, []) && r.rest == d.rest
  {
    var dst: Bytes := [];
    while true
      invariant ReadBody(r.rest, r.size, limit, dst) == ReadBody(old(r.rest), r.size, limit, [])
      decreases |r.rest|
    {
      var s := ParseChunkSize(r);
      if s.Unsized? {
        return Decoded(dst, Some(s.err), r.rest);
      }
      if s.size == 0 {
        return Decoded(dst, None, r.rest);
      }
      if limit > 0 && WrapAdd(|dst|, s.size) > limit {
        return Decoded(dst, Some(TooLarge), r.rest);
      }
      if |dst| + s.size + 2 > MAX_INT {
        return Decoded(dst, Some(SliceOutOfRange), r.rest);
      }
      var err;
      dst, err := AppendChunk(r, dst, s.size);
      if err.Some? {
        return Decoded(dst, err, r.rest);
      }
    }
  }

  // ---- Piece by piece ----

  /** How a body ends; the last two are for bodies without chunks: after its last byte, or with the input. */
  datatype End = AtTrailer | Failed(err: ChunkError) | Whole | InputEnd

  function StartOf(rest: Bytes, size: nat): Start<End> {
    var s := ChunkSize(rest, size);
    if s.Unsized? then Stop(Failed(s.err), s.rest)
    else if s.size == 0 then Stop(AtTrailer, s.rest)
    else Go(s.size, s.rest)
  }

  /** RequestStream's way of reading size lines with a buffer of `size` bytes. */
  function Lenient(size: nat): (r: Rules<End>)
    ensures Sound(r)
  {
    Rules((b: Bytes) => StartOf(b, size), Failed(UnexpectedEof), Failed(BrokenChunk))
  }

  /** What Read reports at the end: an input cut before a size line looks like a finished body. */
  function Reported(end: End): ChunkError {
    if end.Failed? then end.err else EndOfInput
  }

  /** What ReadTrailer makes of the bytes behind the last size line. */
  datatype TrailerRead = TrailerRead(err: Option<ChunkError>, rest: Bytes)

  /** The same when reading the trailer section can fail. */
  function ReportedWith(t: Streamed<End>, trailers: Bytes -> TrailerRead): ChunkError {
    if t.end.AtTrailer? && trailers(t.rest).err.Some? then trailers(t.rest).err.value else Reported(t.end)
  }

  /** What is then left to read, where a body ends before the input does. */
  function LeftWith(t: Streamed<End>, trailers: Bytes -> TrailerRead): Bytes {
    if t.end.AtTrailer? then trailers(t.rest).rest else t.rest
  }

  /** A body without chunks: `left` bytes of what is to come, or all of it if there are fewer or no length is known. */
  function FixedAhead(all: Bytes, left: int): Streamed<End> {
    if 0 <= left <= |all| then Streamed(all[..left], Whole, all[left..]) else Streamed(all, InputEnd, [])
  }

  function Min(a: nat, b: nat): nat {
    if a <= b then a else b
  }

  class RequestStream {
    const reader: Reader
    const contentLength: int
    const prefetched: Bytes
    const trailers: Bytes -> TrailerRead
    var chunkLeft: nat
    var totalBytesRead: nat

    /** `len` is -1 for a chunked body and -2 for one without a length; `t` stands for the header's ReadTrailer. */
    constructor (r: Reader, len: int, pre: Bytes, t: Bytes -> TrailerRead)
      ensures reader == r && contentLength == len && prefetched == pre && trailers == t
      ensures chunkLeft == 0 && totalBytesRead == 0 && (Valid() <==> len > 0 ==> |pre| <= len)
    {
      reader, contentLength, prefetched, trailers := r, len, pre, t;
      chunkLeft, totalBytesRead := 0, 0;
    }

    /** No more is prefetched than the body has. */
    predicate Valid()
      reads this
    {
      && (contentLength > 0 ==> |prefetched| <= contentLength)
      && (contentLength >= 0 ==> totalBytesRead <= contentLength)
    }

    /** The prefetched bytes that are still to be read. */
    function Unread(): Bytes
      reads this
    {
      if contentLength != -1 && totalBytesRead < |prefetched| then prefetched[totalBytesRead..] else []
    }

    ghost function Ahead(): Streamed<End>
      reads this, reader
    {
      if contentLength == -1 then Stream(Lenient(reader.size), reader.rest, chunkLeft)
      else FixedAhead(Unread() + reader.rest, contentLength - totalBytesRead)
    }

    /** The size line of the next chunk, or the trailer section. */
    method NextChunk() returns (err: Option<ChunkError>)
      requires contentLength == -1 && chunkLeft == 0
      modifies this`chunkLeft, reader
      ensures err.None? ==> chunkLeft > 0 && Ahead() == old(Ahead()) && |reader.rest| < |old(reader.rest)|
      ensures err.Some? ==>
                && old(Ahead()).body == [] && err.value == ReportedWith(old(Ahead()), trailers)
                && reader.rest == LeftWith(old(Ahead()), trailers)
    {
      assert Lenient(reader.size).start(reader.rest) == StartOf(reader.rest, reader.size);
      var s := ParseChunkSize(reader);
      if s.Unsized? {
        return Some(s.err);
      }
      if s.size == 0 {
        var t := trailers(reader.rest);
        reader.rest := t.rest;
        if t.err.Some? && t.err.value != EndOfInput {
          return t.err;
        }
        return Some(EndOfInput);
      }
      chunkLeft := s.size;
      return None;
    }

    /** The part of Read for a chunked body. */
    method ReadChunked(want: nat) returns (data: Bytes, err: Option<ChunkError>)
      requires contentLength == -1 && want > 0
      modifies this, reader
      ensures err.None? ==> data != [] && |data| <= want && old(Ahead()) == Deliver(data, Ahead())
      ensures err.None? ==> |reader.rest| < |old(reader.rest)|
      ensures err.Some? ==> old(Ahead()).body == data && err.value == ReportedWith(old(Ahead()), trailers)
      ensures err.Some? && old(Ahead()).end.AtTrailer? ==> reader.rest == LeftWith(old(Ahead()), trailers)
      ensures totalBytesRead == old(totalBytesRead) + |data|
    {
      if chunkLeft == 0 {
        err := NextChunk();
        if err.Some? {
          return [], err;
        }
      }
      var o;
      data, o := Take(reader, chunkLeft, want, Lenient(reader.size));
      totalBytesRead := totalBytesRead + |data|;
      chunkLeft := chunkLeft - |data|;
      match o {
        case More => err := None;
        case Cut => err := Some(UnexpectedEof);
        case NoLineEnd => err := Some(BrokenChunk);
      }
    }

    method TakePrefetched(want: nat) returns (data: Bytes)
      requires contentLength != -1 && totalBytesRead < |prefetched|
      modifies this`totalBytesRead
      ensures totalBytesRead == old(totalBytesRead) + |data| <= |prefetched|
      ensures |data| == Min(want, |prefetched| - old(totalBytesRead))
      ensures data + (Unread() + reader.rest) == old(Unread() + reader.rest)
    {
      ghost var all := Unread() + reader.rest;
      data := prefetched[totalBytesRead..totalBytesRead + Min(want, |prefetched| - totalBytesRead)];
      totalBytesRead := totalBytesRead + |data|;
      assert data + (Unread() + reader.rest) == all;
    }

    method TakeFromReader(want: nat) returns (data: Bytes, end: bool)
      requires contentLength != -1 && totalBytesRead >= |prefetched| && want > 0
      modifies this`totalBytesRead, reader
      ensures totalBytesRead == old(totalBytesRead) + |data| && |data| <= want
      ensures old(totalBytesRead) < contentLength ==> totalBytesRead <= contentLength
      ensures data + (Unread() + reader.rest) == old(Unread() + reader.rest)
      ensures end <==> old(reader.rest) == []
      ensures !end ==> data != []
    {
      ghost var all := Unread() + reader.rest;
      var left := contentLength - totalBytesRead;
      var err;
      data, err := reader.Read(if left > 0 && want > left then left else want);
      totalBytesRead := totalBytesRead + |data|;
      end := err.Some?;
      assert data + (Unread() + reader.rest) == all;
    }

    /** The part of Read for a body without chunks: first what was prefetched, then the reader. */
    method ReadFixed(want: nat) returns (data: Bytes, err: Option<ChunkError>)
      requires contentLength != -1 && want > 0
      modifies this`totalBytesRead, reader
      ensures totalBytesRead == old(totalBytesRead) + |data|
      ensures data + (Unread() + reader.rest) == old(Unread() + reader.rest)
      ensures err.None? ==> data != [] && |data| <= want
      ensures old(totalBytesRead) < |prefetched| && old(totalBytesRead) != contentLength ==>
                && |data| == Min(want, |prefetched| - old(totalBytesRead))
                && (err.None? <==> |data| != contentLength)
      ensures old(Valid()) ==> Valid()
      ensures old(Valid()) && err.None? ==> old(Ahead()) == Deliver(data, Ahead())
      ensures old(Valid()) && err.Some? ==>
                && old(Ahead()).body == data && err.value == EndOfInput
                && Unread() + reader.rest == old(Ahead()).rest
    {
      ghost var all, ahead := Unread() + reader.rest, contentLength - totalBytesRead;
      if totalBytesRead == contentLength {
        FixedPart(all, [], all, 0);
        return [], Some(EndOfInput);
      }
      if |prefetched| > totalBytesRead {
        data := TakePrefetched(want);
        err := if |data| == contentLength then Some(EndOfInput) else None;
      } else {
        var end;
        data, end := TakeFromReader(want);
        err := if end || totalBytesRead == contentLength then Some(EndOfInput) else None;
      }
      if old(Valid()) {
        FixedPart(all, data, Unread() + reader.rest, ahead);
      }
    }

    ghost function Unfinished(): nat
      reads this, reader
    {
      |Unread()| + |reader.rest|
    }

    /**
     Read with a buffer of `want` bytes. What it hands out is the next part of what was ahead, and its error is
     how that ends; at the end of a body the reader stands behind it, its trailer section included.
     */
    method Read(want: nat) returns (data: Bytes, err: Option<ChunkError>)
      requires want > 0
      modifies this, reader
      ensures totalBytesRead == old(totalBytesRead) + |data|
      ensures err.None? ==> data != [] && |data| <= want && Unfinished() < old(Unfinished())
      ensures old(Valid()) ==> Valid()
      ensures old(Valid()) && err.None? ==> old(Ahead()) == Deliver(data, Ahead())
      ensures old(Valid()) && err.Some? ==>
                old(Ahead()).body == data && err.value == ReportedWith(old(Ahead()), trailers)
      ensures old(Valid()) && err.Some? && (contentLength != -1 || old(Ahead()).end.AtTrailer?) ==>
                Unread() + reader.rest == LeftWith(old(Ahead()), trailers)
    {
      if contentLength == -1 {
        data, err := ReadChunked(want);
      } else {
        ghost var all := Unread() + reader.rest;
        data, err := ReadFixed(want);
        assert |data + (Unread() + reader.rest)| == |all|;
      }
    }

    /** Any sequence of reads up to the first error, whatever the buffer sizes and however the bytes arrive. */
    method ReadAll() returns (body: Bytes, err: ChunkError)
      modifies this, reader
      ensures totalBytesRead == old(totalBytesRead) + |body|
      ensures old(Valid()) ==> body == old(Ahead()).body && err == ReportedWith(old(Ahead()), trailers)
      ensures old(Valid()) && (contentLength != -1 || old(Ahead()).end.AtTrailer?) ==>
                Unread() + reader.rest == LeftWith(old(Ahead()), trailers)
    {
      ghost var all := Ahead();
      body := [];
      while true
        invariant old(Valid()) ==> Valid() && all == Deliver(body, Ahead())
        invariant totalBytesRead == old(totalBytesRead) + |body|
        decreases Unfinished()
      {
        assert 1 > 0;
        var want: nat :| want > 0;
        var data, end := Read(want);
        DeliverTwice(body, data, Ahead());
        body := body + data;
        if end.Some? {
          return body, end.value;
        }
      }
    }
  }

  /**
   What Valid asks for is needed: with more bytes prefetched than the body has, a Read with enough room hands
   them all out, beyond the body's length, and reports no end.
   */
  method OverrunsLength(r: Reader, len: nat, pre: Bytes, t: Bytes -> TrailerRead)
    returns (data: Bytes, err: Option<ChunkError>)
    requires 0 < len < |pre|
    modifies r
    ensures |data| > len && err.None?
  {
    var rs := new RequestStream(r, len, pre, t);
    data, err := rs.ReadFixed(|pre|);
  }

  /** Part of a body without chunks. */
  lemma FixedPart(all: Bytes, data: Bytes, later: Bytes, left: int)
    requires all == data + later && (left >= 0 ==> |data| <= left)
    ensures FixedAhead(all, left) == Deliver(data, FixedAhead(later, left - |data|))
    ensures left == |data| ==> FixedAhead(all, left) == Streamed(data, Whole, later)
    ensures left != |data| && later == [] ==> FixedAhead(all, left) == Streamed(data, InputEnd, [])
  {
    if 0 <= left <= |all| {
      assert all[..left] == data + later[..left - |data|];
      assert all[left..] == later[left - |data|..];
    }
  }

  /** The whole of what a stream on `input` delivers. */
  function Streaming(input: Bytes, size: nat): Streamed<End> {
    Stream(Lenient(size), input, 0)
  }

  // ---- The two decoders agree ----

  lemma BatchStep(rest: Bytes, size: nat, limit: nat, s: Sized, dst: Bytes)
    requires ChunkSize(rest, size) == s && s.Sized? && s.size > 0 && HasLineEnd(s.rest, s.size)
    requires |dst| + s.size + 2 <= MAX_INT && (limit == 0 || |dst| + s.size <= limit)
    ensures ReadBody(rest, size, limit, dst) == ReadBody(s.rest[s.size + 2..], size, limit, dst + s.rest[..s.size])
  {
  }

  lemma StreamStep(rest: Bytes, size: nat, s: Sized)
    requires ChunkSize(rest, size) == s && s.Sized? && s.size > 0
    ensures HasLineEnd(s.rest, s.size) ==>
      Streaming(rest, size) == Deliver(s.rest[..s.size], Streaming(s.rest[s.size + 2..], size))
    ensures !HasLineEnd(s.rest, s.size) ==> Streaming(rest, size).end.Failed?
  {
    OneChunk(Lenient(size), rest, s.size, s.rest);
  }

  /** What the stream still delivers completes what was read. */
  ghost predicate Completes(d: Decoded, dst: Bytes, t: Streamed<End>) {
    t.end == AtTrailer && t.rest == d.rest && d.body == dst + t.body
  }

  lemma CompletesEarlier(d: Decoded, dst: Bytes, chunk: Bytes, t: Streamed<End>)
    requires Completes(d, dst + chunk, t)
    ensures Completes(d, dst, Deliver(chunk, t))
  {
    assert (dst + chunk) + t.body == dst + (chunk + t.body);
  }

  lemma {:induction false} BatchThenStream(rest: Bytes, size: nat, dst: Bytes)
    requires ReadBody(rest, size, 0, dst).err.None?
    ensures Completes(ReadBody(rest, size, 0, dst), dst, Streaming(rest, size))
    decreases |rest|
  {
    var d, s := ReadBody(rest, size, 0, dst), ChunkSize(rest, size);
    if s.size > 0 {
      var chunk, later := s.rest[..s.size], s.rest[s.size + 2..];
      StreamStep(rest, size, s);
      BatchStep(rest, size, 0, s, dst);
      BatchThenStream(later, size, dst + chunk);
      CompletesEarlier(d, dst, chunk, Streaming(later, size));
    } else {
      assert dst + [] == dst;
    }
  }

  lemma {:induction false} StreamThenBatch(rest: Bytes, size: nat, dst: Bytes)
    requires Streaming(rest, size).end.AtTrailer? && |dst| + |rest| <= MAX_INT
    ensures ReadBody(rest, size, 0, dst).err.None?
    decreases |rest|
  {
    var s := ChunkSize(rest, size);
    if s.Sized? && s.size > 0 {
      StreamStep(rest, size, s);
      BatchStep(rest, size, 0, s, dst);
      StreamThenBatch(s.rest[s.size + 2..], size, dst + s.rest[..s.size]);
    }
  }

  /** Read as a whole or piece by piece, a body is accepted alike, with the same bytes and the same trailer position. */
  lemma DecodersAgree(input: Bytes, size: nat)
    requires |input| <= MAX_INT
    ensures var d, t := ReadBody(input, size, 0, []), Streaming(input, size);
            && (d.err.None? <==> t.end.AtTrailer?)
            && (d.err.None? ==> t.body == d.body && t.rest == d.rest)
  {
    if ReadBody(input, size, 0, []).err.None? {
      BatchThenStream(input, size, []);
    } else if Streaming(input, size).end.AtTrailer? {
      StreamThenBatch(input, size, []);
    }
  }

  /** A limit accepts exactly the bodies that are no longer, and does not change them. */
  lemma {:induction false} LimitIsExact(rest: Bytes, size: nat, limit: nat, dst: Bytes)
    requires 0 < limit && |dst| <= limit && |dst| + |rest| <= MAX_INT
    ensures var d, u := ReadBody(rest, size, limit, dst), ReadBody(rest, size, 0, dst);
            && (d.err.None? <==> u.err.None? && |u.body| <= limit)
            && (d.err.None? ==> d == u)
            && (u.err.None? ==> |dst| <= |u.body|)
    decreases |rest|
  {
    var s := ChunkSize(rest, size);
    if s.Sized? && s.size > 0 && |dst| + s.size + 2 <= MAX_INT {
      var c := ReadChunk(s.rest, s.size, dst);
      if c.err.None? {
        if |c.body| <= limit {
          LimitIsExact(c.rest, size, limit, c.body);
        } else {
          BodyGrows(c.rest, size, c.body);
        }
      }
    }
  }

  lemma {:induction false} BodyGrows(rest: Bytes, size: nat, dst: Bytes)
    ensures ReadBody(rest, size, 0, dst).err.None? ==> |dst| <= |ReadBody(rest, size, 0, dst).body|
    decreases |rest|
  {
    if ReadBody(rest, size, 0, dst).err.None? {
      BatchThenStream(rest, size, dst);
    }
  }

  // ---- Written sizes ----

  lemma {:induction false} NoTrim(s: Bytes)
    requires s == [] || !IsBlank(s[|s| - 1])
    ensures TrimTrailing(s) == s
  {
  }

  lemma {:induction false} NotIn(s: Bytes, b: Octet)
    requires b !in s
    ensures IndexOf(s, b) == |s|
  {
    if s != [] {
      NotIn(s[1..], b);
    }
  }

  /** The size line that both writers write. */
  function SizeLine(n: nat): Bytes {
    HexOf(n) + CRLF
  }

  lemma SizeLineText(n: nat)
    ensures SizeLine(n)[..|SizeLine(n)| - 2] == HexOf(n) && EndsInCRLF(SizeLine(n))
    ensures SEMICOLON !in HexOf(n) && LF !in HexOf(n) && !IsBlank(HexOf(n)[|HexOf(n)| - 1])
  {
    HexOnly(n);
    assert HexVal(HexOf(n)[|HexOf(n)| - 1]).Some?;
  }

  lemma SizeLineSize(n: nat)
    requires n <= MAX_INT
    ensures SizeOf(SizeLine(n)) == Some(n)
  {
    var text := HexOf(n);
    SizeLineText(n);
    NotIn(text, SEMICOLON);
    assert text[..|text|] == text;
    NoTrim(text);
    HexRoundTrip(n);
  }

  /** A written size line is read whole when it fits the buffer. */
  lemma SizeLineRead(n: nat, tail: Bytes, size: nat)
    requires |SizeLine(n)| <= size
    ensures ReadSliceOf(SizeLine(n) + tail, size) == Slice(SizeLine(n), None, tail)
  {
    SizeLineText(n);
    var line := SizeLine(n);
    var all := line + tail;
    assert all == HexOf(n) + (CRLF + tail);
    IndexInPrefix(HexOf(n), CRLF + tail, LF);
    IndexAt(CRLF + tail, LF, 1);
    assert all[..|line|] == line && all[|line|..] == tail;
  }

  lemma WrittenSize(n: nat, tail: Bytes, size: nat)
    requires n <= MAX_INT && |SizeLine(n)| <= size
    ensures ChunkSize(SizeLine(n) + tail, size) == Sized(n, tail)
  {
    SizeLineRead(n, tail, size);
    SizeLineSize(n);
  }

  /** What a line states does not depend on the buffer as long as the line fits it. */
  lemma FittingLine(rest: Bytes, a: nat, b: nat)
    requires IndexOf(rest, LF) < |rest| && IndexOf(rest, LF) < a && IndexOf(rest, LF) < b
    ensures ChunkSize(rest, a) == ChunkSize(rest, b)
  {
  }

  /** A longer line is read without the part that filled the buffer, whatever that part says. */
  lemma LongLineLosesItsStart(junk: Bytes, n: nat, tail: Bytes)
    requires LF !in junk && n <= MAX_INT
    ensures ChunkSize(junk + (SizeLine(n) + tail), |junk|) == Sized(n, tail)
  {
    var line := SizeLine(n) + tail;
    IndexInPrefix(junk, line, LF);
    assert (junk + line)[..|junk|] == junk && (junk + line)[|junk|..] == line;
    SizeLineRead(n, tail, |SizeLine(n)|);
    SizeLineSize(n);
  }

  /** A chunk as both writers write it. */
  function Chunk(p: Bytes): Bytes {
    SizeLine(|p|) + (p + CRLF)
  }

  lemma ChunkAhead(p: Bytes, tail: Bytes)
    ensures Chunk(p) + tail == SizeLine(|p|) + (p + (CRLF + tail))
    ensures HasLineEnd(p + (CRLF + tail), |p|)
    ensures (p + (CRLF + tail))[..|p|] == p && (p + (CRLF + tail))[|p| + 2..] == tail
  {
  }
}
