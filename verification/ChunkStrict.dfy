/**
 The strict decoder of chunked transfer coding: it checks chunk extensions and the trailer section,
 and what it accepts completely the lenient decoders accept with the same payload.
 */
module ChunkStrict {
  import opened Common
  import opened Octets
  import opened Bufio
  import opened ChunkExt
  import opened ChunkStream
  import ChunkLenient

  datatype StrictError =
    | EndOfInput | UnexpectedEof | LineTooLong | Boundary | InvalidSize | InvalidTrailer | ForbiddenTrailer

  datatype Result<T> = Ok(value: T) | Err(error: StrictError)

  // ---- The size line ----

  const MAX_CHUNK_LINE := 16384

  datatype Line = Line(line: Result<Bytes>, rest: Bytes)

  /** How a part of a line that does not fit the buffer ends the search for its end, if it does. */
  function LongLineError(err: Option<ReadError>, total: nat): Option<StrictError> {
    if total > MAX_CHUNK_LINE || err.None? then Some(InvalidSize)
    else if err.value == Eof then Some(EndOfInput)
    else None
  }

  /** The loop for a line that does not fit the buffer: it is never accepted. */
  function LongLine(rest: Bytes, size: nat, total: nat): (r: Line)
    requires size > 0
    ensures r.line.Err?
  {
    var s := ReadSliceOf(rest, size);
    assert |s.line + s.rest| == |rest|;
    var end := LongLineError(s.err, total + |s.line|);
    if end.Some? then Line(Err(end.value), s.rest) else LongLine(s.rest, size, total + |s.line|)
  }

  function ChunkLine(rest: Bytes, size: nat): (r: Line)
    requires size > 0
    ensures r.line.Ok? ==> |r.rest| < |rest|
  {
    var s := ReadSliceOf(rest, size);
    assert |s.line + s.rest| == |rest|;
    if s.err.None? then Line(if |s.line| > MAX_CHUNK_LINE then Err(InvalidSize) else Ok(s.line), s.rest)
    else if s.err.value == Eof then Line(Err(EndOfInput), s.rest)
    else LongLine(s.rest, size, |s.line|)
  }

  function SizeText(text: Bytes): Result<Bytes> {
    var idx := IndexOf(text, SEMICOLON);
    if idx == |text| then Ok(text)
    else if Accepts(text[idx..]) then Ok(TrimTrailing(text[..idx]))
    else Err(InvalidSize)
  }

  /** The size that a line states; blanks are allowed only before extensions, and these must be valid. */
  function SizeOf(line: Bytes): Result<nat> {
    if !ChunkLenient.EndsInCRLF(line) then Err(Boundary)
    else
      var t := SizeText(line[..|line| - 2]);
      if t.Err? then Err(t.error)
      else if ParseSize(t.value).None? then Err(InvalidSize)
      else Ok(ParseSize(t.value).value)
  }

  // ---- The trailer section ----

  function Lower(b: Octet): Octet {
    if 65 <= b <= 90 then b + 32 else b
  }

  predicate EqualFold(a: Bytes, b: Bytes) {
    |a| == |b| && forall i | 0 <= i < |a| :: Lower(a[i]) == Lower(b[i])
  }

  const HOST: Bytes := [72, 111, 115, 116]
  const TRAILER: Bytes := [84, 114, 97, 105, 108, 101, 114]
  const CONTENT_LENGTH: Bytes := [67, 111, 110, 116, 101, 110, 116, 45, 76, 101, 110, 103, 116, 104]
  const TRANSFER_ENCODING: Bytes :=
    [84, 114, 97, 110, 115, 102, 101, 114, 45, 69, 110, 99, 111, 100, 105, 110, 103]

  predicate IsForbidden(name: Bytes) {
    || EqualFold(name, HOST) || EqualFold(name, TRAILER)
    || EqualFold(name, CONTENT_LENGTH) || EqualFold(name, TRANSFER_ENCODING)
  }

  const MAX_TRAILERS := 64

  /** The error of a trailer line that is not empty, if it has one. */
  function TrailerError(text: Bytes): Option<StrictError>
    requires text != []
  {
    var c := IndexOf(text, COLON);
    if IsBlank(text[0]) || c == 0 || c == |text| || IsBlank(text[c - 1]) || !IsToken(text[..c]) then
      Some(InvalidTrailer)
    else if IsForbidden(text[..c]) then Some(ForbiddenTrailer)
    else None
  }

  /** What a line of the trailer section is. */
  datatype TrailerLine = LastLine | FieldLine | BadLine(error: StrictError)

  function LineOf(line: Bytes, count: nat): TrailerLine {
    if !ChunkLenient.EndsInCRLF(line) then BadLine(Boundary)
    else
      var text := line[..|line| - 2];
      if text == [] then LastLine
      else if count + 1 > MAX_TRAILERS then BadLine(InvalidTrailer)
      else if TrailerError(text).Some? then BadLine(TrailerError(text).value)
      else FieldLine
  }

  /** The trailer section up to its empty line: what is left after it. */
  function Trailers(rest: Bytes, size: nat, count: nat): (r: Result<Bytes>)
    decreases |rest|
  {
    var s := ReadSliceOf(rest, size);
    assert |s.line + s.rest| == |rest|;
    if s.err.Some? then Err(if s.err.value == Eof then UnexpectedEof else LineTooLong)
    else
      var l := LineOf(s.line, count);
      if l == LastLine then Ok(s.rest)
      else if l.BadLine? then Err(l.error)
      else Trailers(s.rest, size, count + 1)
  }

  // ---- Reading on ----

  datatype End = Complete | Stopped(err: StrictError)

  function StartOf(rest: Bytes, size: nat): Start<End>
    requires size > 0
  {
    var l := ChunkLine(rest, size);
    if l.line.Err? then Stop(Stopped(l.line.error), l.rest)
    else
      var n := SizeOf(l.line.value);
      if n.Err? then Stop(Stopped(n.error), l.rest)
      else if n.value > 0 then Go(n.value, l.rest)
      else
        var t := Trailers(l.rest, size, 0);
        if t.Ok? then Stop(Complete, t.value) else Stop(Stopped(t.error), [])
  }

  /** ChunkedReader's way of reading size lines and the trailer section. */
  function Strict(size: nat): (r: Rules<End>)
    requires size > 0
    ensures Sound(r)
  {
    Rules((b: Bytes) => StartOf(b, size), Stopped(EndOfInput), Stopped(Boundary))
  }

  /** What Read reports at the end: io.EOF for a complete body, and for an input cut inside it. */
  function Reported(end: End): StrictError {
    if end.Complete? then EndOfInput else end.err
  }

  class ChunkedReader {
    const r: Reader
    var remaining: nat
    var done: bool

    constructor (reader: Reader)
      ensures r == reader && remaining == 0 && !done
    {
      r, remaining, done := reader, 0, false;
    }

    ghost function Ahead(): Streamed<End>
      requires r.size > 0
      reads this, r
    {
      Stream(Strict(r.size), r.rest, remaining)
    }

    /** readChunkLine. */
    method ReadChunkLine() returns (line: Result<Bytes>)
      requires r.size > 0
      modifies r
      ensures Line(line, r.rest) == ChunkLine(old(r.rest), r.size)
    {
      var first, err := r.ReadSlice();
      if err.None? {
        return if |first| > MAX_CHUNK_LINE then Err(InvalidSize) else Ok(first);
      }
      if err.value == Eof {
        return Err(EndOfInput);
      }
      line := SkipLongLine(|first|);
    }

    method SkipLongLine(seen: nat) returns (line: Result<Bytes>)
      requires r.size > 0
      modifies r
      ensures Line(line, r.rest) == LongLine(old(r.rest), r.size, seen)
    {
      var total: nat := seen;
      while true
        invariant LongLine(old(r.rest), r.size, seen) == LongLine(r.rest, r.size, total)
        decreases |r.rest|
      {
        ghost var before := r.rest;
        var part, err := r.ReadSlice();
        assert |part + r.rest| == |before|;
        total := total + |part|;
        var end := LongLineError(err, total);
        if end.Some? {
          return Err(end.value);
        }
      }
    }

    method ParseSizeLine(line: Bytes) returns (n: Result<nat>)
      ensures n == SizeOf(line)
    {
      if |line| < 2 || line[|line| - 2] != CR || line[|line| - 1] != LF {
        return Err(Boundary);
      }
      var text := line[..|line| - 2];
      var idx := IndexOf(text, SEMICOLON);
      if idx < |text| {
        var ok := ValidateChunkExtensions(text[idx..]);
        text := TrimTrailing(text[..idx]);
        if !ok {
          return Err(InvalidSize);
        }
      }
      var size := ParseSize(text);
      return if size.None? then Err(InvalidSize) else Ok(size.value);
    }

    method CheckTrailer(text: Bytes) returns (err: Option<StrictError>)
      requires text != []
      ensures err == TrailerError(text)
    {
      if text[0] == SP || text[0] == TAB {
        return Some(InvalidTrailer);
      }
      var colon := IndexOf(text, COLON);
      if colon == 0 || colon == |text| {
        return Some(InvalidTrailer);
      }
      if text[colon - 1] == SP || text[colon - 1] == TAB {
        return Some(InvalidTrailer);
      }
      if !IsToken(text[..colon]) {
        return Some(InvalidTrailer);
      }
      if IsForbidden(text[..colon]) {
        return Some(ForbiddenTrailer);
      }
      return None;
    }

    /** One line of the trailer section; `count` lines came before it. */
    method CheckLine(line: Bytes, count: nat) returns (l: TrailerLine)
      ensures l == LineOf(line, count)
    {
      if |line| < 2 || line[|line| - 2] != CR || line[|line| - 1] != LF {
        return BadLine(Boundary);
      }
      var text := line[..|line| - 2];
      if |text| == 0 {
        return LastLine;
      }
      if count + 1 > MAX_TRAILERS {
        return BadLine(InvalidTrailer);
      }
      var bad := CheckTrailer(text);
      return if bad.Some? then BadLine(bad.value) else FieldLine;
    }

    /** The loop that drains the trailer section. */
    method DrainTrailers() returns (err: StrictError)
      modifies r
      ensures var t := Trailers(old(r.rest), r.size, 0);
              if t.Ok? then err == EndOfInput && r.rest == t.value else err == t.error
    {
      var count: nat := 0;
      while true
        invariant Trailers(r.rest, r.size, count) == Trailers(old(r.rest), r.size, 0)
        decreases |r.rest|
      {
        ghost var before := r.rest;
        var line, lineErr := r.ReadSlice();
        assert |line + r.rest| == |before|;
        if lineErr.Some? {
          return if lineErr.value == Eof then UnexpectedEof else LineTooLong;
        }
        var l := CheckLine(line, count);
        if l == LastLine {
          return EndOfInput;
        }
        if l.BadLine? {
          return l.error;
        }
        count := count + 1;
      }
    }

    /** The next size line, and the trailer section behind the last one. */
    method NextChunk() returns (err: Option<StrictError>)
      requires r.size > 0 && remaining == 0 && !done
      modifies this, r
      ensures err.None? ==> remaining > 0 && Ahead() == old(Ahead()) && |r.rest| < |old(r.rest)| && !done
      ensures err.Some? ==> old(Ahead()).body == [] && err.value == Reported(old(Ahead()).end)
      ensures err.Some? && old(Ahead()).end.Complete? ==> done && r.rest == old(Ahead()).rest
    {
      assert Strict(r.size).start(r.rest) == StartOf(r.rest, r.size);
      var line := ReadChunkLine();
      if line.Err? {
        return Some(line.error);
      }
      var n := ParseSizeLine(line.value);
      if n.Err? {
        return Some(n.error);
      }
      if n.value == 0 {
        done := true;
        var end := DrainTrailers();
        return Some(end);
      }
      remaining := n.value;
      return None;
    }

    /** Read before the end was reported: the next part of what was ahead, or how it ends. */
    method Read(want: nat) returns (data: Bytes, err: Option<StrictError>)
      requires r.size > 0 && want > 0 && !done
      modifies this, r
      ensures err.None? ==> data != [] && |data| <= want && old(Ahead()) == Deliver(data, Ahead()) && !done
      ensures err.None? ==> |r.rest| < |old(r.rest)|
      ensures err.Some? ==> old(Ahead()).body == data && err.value == Reported(old(Ahead()).end)
      ensures err.Some? && old(Ahead()).end.Complete? ==> done && r.rest == old(Ahead()).rest
    {
      if remaining == 0 {
        err := NextChunk();
        if err.Some? {
          return [], err;
        }
      }
      var o;
      data, o := Take(r, remaining, want, Strict(r.size));
      remaining := remaining - |data|;
      match o {
        case More => err := None;
        case Cut => err := Some(EndOfInput);
        case NoLineEnd => err := Some(Boundary);
      }
    }

    /** Any sequence of reads up to the first error, whatever the buffer sizes and however the bytes arrive. */
    method ReadAll() returns (body: Bytes, err: StrictError)
      requires r.size > 0 && !done
      modifies this, r
      ensures body == old(Ahead()).body && err == Reported(old(Ahead()).end)
      ensures old(Ahead()).end.Complete? ==> r.rest == old(Ahead()).rest
    {
      ghost var all := Ahead();
      body := [];
      while true
        invariant !done && all == Deliver(body, Ahead())
        decreases |r.rest|
      {
        assert 1 > 0;
        var want: nat :| want > 0;
        var data, end := Read(want);
        DeliverTwice(body, data, Ahead());
        body := body + data;
        if end.Some? {
          return body, end.value;
        }
      }
    }
  }

  /** The whole of what a strict reader on `input` delivers. */
  function Streaming(input: Bytes, size: nat): Streamed<End>
    requires size > 0
  {
    Stream(Strict(size), input, 0)
  }

  // ---- Strict and lenient ----

  lemma {:induction false} HexText(s: Bytes)
    requires HexValue(s).Some? && s != []
    ensures !IsBlank(s[|s| - 1])
  {
  }

  /** A size line that is accepted strictly states the same size leniently. */
  lemma SizesAgree(line: Bytes)
    requires SizeOf(line).Ok?
    ensures ChunkLenient.SizeOf(line) == Some(SizeOf(line).value)
  {
    var text := line[..|line| - 2];
    if IndexOf(text, SEMICOLON) == |text| {
      assert text[..|text|] == text;
      HexText(text);
      ChunkLenient.NoTrim(text);
    }
  }

  /** A read that finds no line end within its buffer leaves every LF to come. */
  predicate LeavesLf(s: Slice, rest: Bytes, size: nat) {
    && |s.line| + |s.rest| == |rest|
    && (s.err.None? ==> LF in rest)
    && (s.err.Some? ==> (LF in rest <==> LF in s.rest))
    && (s.err == Some(Eof) ==> s.rest == [] && |rest| < size)
    && (s.err == Some(BufferFull) ==> |s.line| == size)
  }

  lemma SliceLeavesLf(rest: Bytes, size: nat)
    ensures LeavesLf(ReadSliceOf(rest, size), rest, size)
  {
    var s, j := ReadSliceOf(rest, size), IndexOf(rest, LF);
    assert s.line + s.rest == rest;
    IndexMeans(rest, LF);
    if s.err.Some? {
      assert rest[..j][..|s.line|] == s.line;
    }
  }

  lemma LongLineStep(rest: Bytes, size: nat, total: nat, s: Slice)
    requires size > 0 && s == ReadSliceOf(rest, size)
    ensures var end := LongLineError(s.err, total + |s.line|);
            LongLine(rest, size, total)
            == if end.Some? then Line(Err(end.value), s.rest) else LongLine(s.rest, size, total + |s.line|)
  {
  }

  /** A long line counts as the end of the input only if the input ends there, within the limit. */
  predicate EndsWithin(l: Line, rest: Bytes, total: nat) {
    && (l.line == Err(EndOfInput) <==> LF !in rest && total + |rest| <= MAX_CHUNK_LINE)
    && (l.line == Err(EndOfInput) ==> l.rest == [])
  }

  lemma EndsWithinEarlier(s: Slice, rest: Bytes, size: nat, total: nat, later: Line)
    requires LeavesLf(s, rest, size)
    requires LongLineError(s.err, total + |s.line|).None? ==> EndsWithin(later, s.rest, total + |s.line|)
    ensures var end := LongLineError(s.err, total + |s.line|);
            EndsWithin(if end.Some? then Line(Err(end.value), s.rest) else later, rest, total)
  {
  }

  lemma {:induction false} LongLineEnds(rest: Bytes, size: nat, total: nat)
    requires size > 0
    ensures EndsWithin(LongLine(rest, size, total), rest, total)
    decreases |rest|
  {
    var s := ReadSliceOf(rest, size);
    var seen := total + |s.line|;
    SliceLeavesLf(rest, size);
    LongLineStep(rest, size, total, s);
    if LongLineError(s.err, seen).None? {
      LongLineEnds(s.rest, size, seen);
    }
    EndsWithinEarlier(s, rest, size, total, LongLine(s.rest, size, seen));
  }

  /** When an input counts as ending inside a size line. */
  lemma LineEnds(rest: Bytes, size: nat)
    requires size > 0
    ensures var l := ChunkLine(rest, size);
            && (l.line == Err(EndOfInput) <==> LF !in rest && (|rest| < size || |rest| <= MAX_CHUNK_LINE))
            && (l.line == Err(EndOfInput) ==> l.rest == [])
  {
    var s := ReadSliceOf(rest, size);
    SliceLeavesLf(rest, size);
    if s.err == Some(BufferFull) {
      LongLineEnds(s.rest, size, |s.line|);
    }
  }

  /** Such an input is refused leniently as well. */
  lemma LineCut(rest: Bytes, size: nat)
    requires size > 0 && ChunkLine(rest, size).line == Err(EndOfInput)
    ensures ChunkLenient.ChunkSize(rest, size).Unsized?
  {
    LineEnds(rest, size);
    SliceLeavesLf(rest, size);
    ChunkLenient.NotIn(ReadSliceOf(rest, size).rest, LF);
  }

  lemma LinesAgree(rest: Bytes, size: nat)
    requires size > 0 && ChunkLine(rest, size).line.Ok? && SizeOf(ChunkLine(rest, size).line.value).Ok?
    ensures ChunkLenient.ChunkSize(rest, size)
            == ChunkLenient.Sized(SizeOf(ChunkLine(rest, size).line.value).value, ChunkLine(rest, size).rest)
  {
    SizesAgree(ChunkLine(rest, size).line.value);
  }

  /** No error of a size line or of the trailer section is reported as io.EOF, except an input that ends there. */
  lemma EofOnlyAtLine(rest: Bytes, size: nat)
    requires size > 0 && StartOf(rest, size).Stop? && StartOf(rest, size).end == Stopped(EndOfInput)
    ensures ChunkLine(rest, size).line == Err(EndOfInput)
  {
    var l := ChunkLine(rest, size);
    if l.line.Ok? {
      NoEofInTrailers(l.rest, size, 0);
    }
  }

  lemma {:induction false} NoEofInTrailers(rest: Bytes, size: nat, count: nat)
    ensures Trailers(rest, size, count) != Err(EndOfInput)
    decreases |rest|
  {
    var s := ReadSliceOf(rest, size);
    assert |s.line + s.rest| == |rest|;
    if s.err.None? {
      NoEofInTrailers(s.rest, size, count + 1);
    }
  }

  /** How the two streams' ends go together. */
  predicate Alike(strict: Streamed<End>, lenient: Streamed<ChunkLenient.End>) {
    && (strict.end.Complete? ==> lenient.end.AtTrailer? && lenient.body == strict.body)
    && (strict.end == Stopped(EndOfInput) ==> lenient.end.Failed?)
  }

  lemma AlikeEarlier(data: Bytes, strict: Streamed<End>, lenient: Streamed<ChunkLenient.End>)
    requires Alike(strict, lenient)
    ensures Alike(Deliver(data, strict), Deliver(data, lenient))
  {
  }

  lemma {:induction false} StrictThenLenient(rest: Bytes, size: nat)
    requires size > 0
    ensures Alike(Streaming(rest, size), ChunkLenient.Streaming(rest, size))
    decreases |rest|
  {
    var start := StartOf(rest, size);
    assert Strict(size).start(rest) == start;
    assert ChunkLenient.Lenient(size).start(rest) == ChunkLenient.StartOf(rest, size);
    if start.Go? {
      LinesAgree(rest, size);
      OneChunk(Strict(size), rest, start.n, start.rest);
      OneChunk(ChunkLenient.Lenient(size), rest, start.n, start.rest);
      if HasLineEnd(start.rest, start.n) {
        var later := start.rest[start.n + 2..];
        StrictThenLenient(later, size);
        AlikeEarlier(start.rest[..start.n], Streaming(later, size), ChunkLenient.Streaming(later, size));
      }
    } else if start.end == Complete {
      LinesAgree(rest, size);
    } else if start.end == Stopped(EndOfInput) {
      EofOnlyAtLine(rest, size);
      LineCut(rest, size);
    }
  }
}
