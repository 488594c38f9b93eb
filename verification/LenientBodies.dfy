/**
 Which inputs the lenient decoders accept, and on which other inputs the stream reports the end of a
 body: both as conditions on the bytes.
 */
module LenientBodies {
  import opened Common
  import opened Octets
  import opened Bufio
  import opened ChunkStream
  import opened ChunkGrammar
  import opened ChunkLenient
  import ChunkSizes

  /** What counts of a line: all of it if it fits the buffer, else what did not fit. */
  function Kept(line: Bytes, size: nat): Bytes {
    if |line| <= size then line else line[size..]
  }

  ghost predicate States(line: Bytes, n: nat, size: nat) {
    IsLine(line) && ChunkSizes.Lenient(Kept(line, size), n)
  }

  ghost function Rule(size: nat): (Bytes, nat) -> bool {
    (line: Bytes, n: nat) => States(line, n, size)
  }

  lemma LineRead(line: Bytes, tail: Bytes, size: nat)
    requires IsLine(line)
    ensures ChunkSize(line + tail, size) == FromLine(Kept(line, size), tail)
  {
    if |line| <= size {
      SliceIsLine(line, tail, size);
    } else {
      var kept := line[size..];
      LineIndex(line, tail);
      assert (line + tail)[size..] == kept + tail;
      assert IsLine(kept) by {
        assert kept[..|kept| - 1] == line[..|line| - 1][size..];
      }
      LineIndex(kept, tail);
      assert (kept + tail)[..|kept|] == kept && (kept + tail)[|kept|..] == tail;
    }
  }

  lemma StatedRead(line: Bytes, n: nat, tail: Bytes, size: nat)
    requires States(line, n, size)
    ensures ChunkSize(line + tail, size) == Sized(n, tail)
  {
    LineRead(line, tail, size);
    ChunkSizes.LenientSize(Kept(line, size), n);
  }

  /** An input that has an LF starts with a line; one that has none is refused. */
  lemma ReadLine(b: Bytes, size: nat)
    ensures LF !in b ==> ChunkSize(b, size) == Unsized(if |b| < size then EndOfInput else BrokenChunk, [])
    ensures LF in b ==> var j := IndexOf(b, LF) + 1;
                        && j <= |b| && IsLine(b[..j]) && b == b[..j] + b[j..]
                        && ChunkSize(b, size) == FromLine(Kept(b[..j], size), b[j..])
  {
    NoLf(b);
    if LF in b {
      var j := IndexOf(b, LF) + 1;
      UpToLf(b);
      assert b == b[..j] + b[j..];
      LineRead(b[..j], b[j..], size);
    } else if |b| >= size {
      NoLf(b[size..]);
    }
  }

  /** A size that is read is stated by the line. */
  lemma StatedLine(b: Bytes, size: nat)
    requires ChunkSize(b, size).Sized?
    ensures var j := IndexOf(b, LF) + 1;
            && j <= |b| && b == b[..j] + b[j..] && ChunkSize(b, size).rest == b[j..]
            && States(b[..j], ChunkSize(b, size).size, size)
  {
    ReadLine(b, size);
    ChunkSizes.LenientSize(Kept(b[..IndexOf(b, LF) + 1], size), ChunkSize(b, size).size);
  }

  lemma LenientFollows(size: nat)
    ensures Follows(Lenient(size), Rule(size))
  {
    forall line: Bytes, n: nat, t: Bytes | n > 0 && Rule(size)(line, n)
      ensures Lenient(size).start(line + t) == Go(n, t)
    {
      StatedRead(line, n, t, size);
    }
    forall b: Bytes | Lenient(size).start(b).Go?
      ensures Headed(b, Lenient(size).start(b), Rule(size))
    {
      StatedLine(b, size);
    }
  }

  // ---- Accepted bodies ----

  /** Chunks, a line that states zero, and what follows it: the trailer section. */
  datatype Body = Body(chunks: seq<Piece>, last: Bytes, rest: Bytes)

  ghost predicate Spells(b: Body, input: Bytes, size: nat) {
    Stated(b.chunks, Rule(size)) && States(b.last, 0, size) && input == Written(b.chunks, b.last + b.rest)
  }

  /** Chunks, and then the start of a line whose end is missing. */
  datatype CutBody = CutBody(chunks: seq<Piece>, part: Bytes)

  ghost predicate CutsAt(c: CutBody, input: Bytes, size: nat) {
    Stated(c.chunks, Rule(size)) && LF !in c.part && |c.part| < size && input == Written(c.chunks, c.part)
  }

  lemma BodyIsRead(b: Body, input: Bytes, size: nat)
    requires Spells(b, input, size)
    ensures Streaming(input, size) == Streamed(Payload(b.chunks), AtTrailer, b.rest)
    ensures |input| <= MAX_INT ==> ReadBody(input, size, 0, []) == Decoded(Payload(b.chunks), None, b.rest)
  {
    LenientFollows(size);
    PiecesAhead(Lenient(size), Rule(size), b.chunks, b.last + b.rest);
    StatedRead(b.last, 0, b.rest, size);
    assert Lenient(size).start(b.last + b.rest) == Stop(AtTrailer, b.rest);
    assert Payload(b.chunks) + [] == Payload(b.chunks);
    if |input| <= MAX_INT {
      DecodersAgree(input, size);
    }
  }

  lemma CutIsRead(c: CutBody, input: Bytes, size: nat)
    requires CutsAt(c, input, size)
    ensures Streaming(input, size) == Streamed(Payload(c.chunks), Failed(EndOfInput), [])
  {
    LenientFollows(size);
    PiecesAhead(Lenient(size), Rule(size), c.chunks, c.part);
    ReadLine(c.part, size);
    assert Lenient(size).start(c.part) == Stop(Failed(EndOfInput), []);
    assert Payload(c.chunks) + [] == Payload(c.chunks);
  }

  lemma TailIsSpelled(cs: seq<Piece>, tail: Bytes, size: nat)
    requires Stated(cs, Rule(size)) && StartOf(tail, size).Stop?
    ensures StartOf(tail, size).end == AtTrailer ==> exists b: Body :: Spells(b, Written(cs, tail), size)
    ensures StartOf(tail, size).end == Failed(EndOfInput) ==> exists c: CutBody :: CutsAt(c, Written(cs, tail), size)
  {
    ReadLine(tail, size);
    if StartOf(tail, size).end == AtTrailer {
      var j := IndexOf(tail, LF) + 1;
      StatedLine(tail, size);
      assert Spells(Body(cs, tail[..j], tail[j..]), Written(cs, tail), size);
    } else if StartOf(tail, size).end == Failed(EndOfInput) {
      assert CutsAt(CutBody(cs, tail), Written(cs, tail), size);
    }
  }

  lemma EndIsSpelled(input: Bytes, size: nat)
    ensures Streaming(input, size).end == AtTrailer ==> exists b: Body :: Spells(b, input, size)
    ensures Streaming(input, size).end == Failed(EndOfInput) ==> exists c: CutBody :: CutsAt(c, input, size)
  {
    LenientFollows(size);
    var cs, tail := Parse(Lenient(size), Rule(size), input);
    var s := Lenient(size).start(tail);
    if s.Go? {
      OneChunk(Lenient(size), tail, s.n, s.rest);
    } else {
      TailIsSpelled(cs, tail, size);
    }
  }

  /** What the lenient decoders accept, and when the stream reports io.EOF for a body that is cut. */
  lemma LenientEndMeans(input: Bytes, size: nat)
    ensures Streaming(input, size).end == AtTrailer <==> exists b: Body :: Spells(b, input, size)
    ensures Streaming(input, size).end == Failed(EndOfInput) <==> exists c: CutBody :: CutsAt(c, input, size)
    ensures |input| <= MAX_INT ==>
              (ReadBody(input, size, 0, []).err.None? <==> exists b: Body :: Spells(b, input, size))
  {
    EndIsSpelled(input, size);
    if b: Body :| Spells(b, input, size) {
      BodyIsRead(b, input, size);
    }
    if c: CutBody :| CutsAt(c, input, size) {
      CutIsRead(c, input, size);
    }
    if |input| <= MAX_INT {
      DecodersAgree(input, size);
    }
  }
}
