/**
 Which inputs the strict reader accepts, and on which other inputs it reports io.EOF as well: both as
 conditions on the bytes, which tell what io.EOF says about the lenient decoders.
 */
module StrictBodies {
  import opened Common
  import opened Octets
  import opened Bufio
  import opened ChunkExt
  import opened ChunkStream
  import opened ChunkGrammar
  import opened ChunkStrict
  import ChunkLenient
  import ChunkSizes

  // ---- Size lines ----

  /** A line that fits the buffer and the limit, and states a size. */
  ghost predicate States(line: Bytes, n: nat, size: nat) {
    IsLine(line) && |line| <= size && |line| <= MAX_CHUNK_LINE && ChunkSizes.Strict(line, n)
  }

  ghost function Rule(size: nat): (Bytes, nat) -> bool {
    (line: Bytes, n: nat) => States(line, n, size)
  }

  lemma LineRead(line: Bytes, tail: Bytes, size: nat)
    requires size > 0 && IsLine(line) && |line| <= size && |line| <= MAX_CHUNK_LINE
    ensures ChunkLine(line + tail, size) == Line(Ok(line), tail)
  {
    SliceIsLine(line, tail, size);
  }

  lemma StatedRead(line: Bytes, n: nat, tail: Bytes, size: nat)
    requires size > 0 && States(line, n, size)
    ensures ChunkLine(line + tail, size) == Line(Ok(line), tail) && SizeOf(line) == Ok(n)
  {
    LineRead(line, tail, size);
    ChunkSizes.StrictSize(line, n);
  }

  lemma ReadLine(b: Bytes, size: nat)
    requires size > 0 && ChunkLine(b, size).line.Ok?
    ensures var l := ChunkLine(b, size);
            && IsLine(l.line.value) && |l.line.value| <= size && |l.line.value| <= MAX_CHUNK_LINE
            && b == l.line.value + l.rest
            && (SizeOf(l.line.value).Ok? ==> States(l.line.value, SizeOf(l.line.value).value, size))
  {
    LineIsSlice(b, size);
    var line := ChunkLine(b, size).line.value;
    if SizeOf(line).Ok? {
      ChunkSizes.StrictSize(line, SizeOf(line).value);
    }
  }

  lemma StrictFollows(size: nat)
    requires size > 0
    ensures Follows(Strict(size), Rule(size))
  {
    forall line: Bytes, n: nat, t: Bytes | n > 0 && Rule(size)(line, n)
      ensures Strict(size).start(line + t) == Go(n, t)
    {
      StatedRead(line, n, t, size);
    }
    forall b: Bytes | Strict(size).start(b).Go?
      ensures Headed(b, Strict(size).start(b), Rule(size))
    {
      ReadLine(b, size);
      var l := ChunkLine(b, size);
      assert b[..|b| - |l.rest|] == l.line.value;
    }
  }

  // ---- The trailer section ----

  /** A field: a name that is a token and may stand in a trailer section, a colon, and anything else. */
  ghost predicate IsField(text: Bytes) {
    exists c: nat :: NameEnds(text, c)
  }

  predicate NameEnds(text: Bytes, c: nat) {
    c < |text| && text[c] == ':' as int && IsName(text[..c]) && !IsReserved(text[..c])
  }

  predicate IsName(s: Bytes) {
    s != [] && forall i | 0 <= i < |s| :: IsTchar(s[i])
  }

  /** The text is this name, written in lower case here, in any case. */
  predicate Reads(s: Bytes, name: string) {
    && |s| == |name|
    && forall i | 0 <= i < |s| :: s[i] == name[i] as int || ('a' <= name[i] <= 'z' && s[i] == name[i] as int - 32)
  }

  /** Fields that may not stand in a trailer section. */
  predicate IsReserved(name: Bytes) {
    Reads(name, "host") || Reads(name, "trailer") || Reads(name, "content-length") || Reads(name, "transfer-encoding")
  }

  lemma NameMeans(s: Bytes)
    ensures IsToken(s) <==> IsName(s)
  {
    forall i | 0 <= i < |s|
      ensures IsTokenByte(s[i]) <==> IsTchar(s[i])
    {
      TokenByteMeans(s[i]);
    }
  }

  lemma ReadsMeans(s: Bytes, target: Bytes, name: string)
    requires |target| == |name|
    requires forall i | 0 <= i < |name| :: Lower(target[i]) == name[i] as int && !('A' <= name[i] <= 'Z')
    ensures EqualFold(s, target) <==> Reads(s, name)
  {
  }

  lemma ReservedMeans(s: Bytes)
    ensures IsForbidden(s) <==> IsReserved(s)
  {
    ReadsMeans(s, HOST, "host");
    ReadsMeans(s, TRAILER, "trailer");
    ReadsMeans(s, CONTENT_LENGTH, "content-length");
    ReadsMeans(s, TRANSFER_ENCODING, "transfer-encoding");
  }

  lemma FieldMeans(text: Bytes)
    requires text != []
    ensures TrailerError(text).None? <==> IsField(text)
  {
    IndexMeans(text, COLON);
    forall i: nat | i <= |text|
      ensures IsToken(text[..i]) == IsName(text[..i]) && IsForbidden(text[..i]) == IsReserved(text[..i])
    {
      NameMeans(text[..i]);
      ReservedMeans(text[..i]);
    }
    if c: nat :| NameEnds(text, c) {
      forall j | 0 <= j < c
        ensures text[j] != COLON && !IsBlank(text[j])
      {
        assert IsTokenByte(text[..c][j]);
      }
      IndexAt(text, COLON, c);
    }
    if TrailerError(text).None? {
      assert NameEnds(text, IndexOf(text, COLON));
    }
  }

  /** A line of the trailer section. */
  ghost predicate IsFieldLine(line: Bytes, size: nat) {
    IsLine(line) && |line| <= size && ChunkLenient.EndsInCRLF(line) && IsField(line[..|line| - 2])
  }

  lemma LineMeans(line: Bytes, size: nat, count: nat)
    requires IsLine(line) && |line| <= size
    ensures LineOf(line, count) == LastLine <==> line == CRLF
    ensures LineOf(line, count) == FieldLine <==> IsFieldLine(line, size) && count < MAX_TRAILERS
  {
    if |line| > 2 {
      FieldMeans(line[..|line| - 2]);
    }
  }

  function Lines(fs: seq<Bytes>, tail: Bytes): Bytes {
    if fs == [] then tail else fs[0] + Lines(fs[1..], tail)
  }

  ghost predicate AllFields(fs: seq<Bytes>, size: nat) {
    forall i | 0 <= i < |fs| :: IsFieldLine(fs[i], size)
  }

  lemma OneMoreField(line: Bytes, fs: seq<Bytes>, tail: Bytes, size: nat)
    requires IsFieldLine(line, size) && AllFields(fs, size)
    ensures AllFields([line] + fs, size) && Lines([line] + fs, tail) == line + Lines(fs, tail)
  {
    assert ([line] + fs)[1..] == fs;
  }

  lemma TrailersStep(b: Bytes, size: nat, count: nat, s: Slice)
    requires s == ReadSliceOf(b, size) && s.err.None?
    ensures LineOf(s.line, count) == LastLine ==> Trailers(b, size, count) == Ok(s.rest)
    ensures LineOf(s.line, count) == FieldLine ==> Trailers(b, size, count) == Trailers(s.rest, size, count + 1)
    ensures LineOf(s.line, count).BadLine? ==> Trailers(b, size, count).Err?
  {
  }

  lemma EmptyLineRead(rest: Bytes, size: nat, count: nat)
    requires size >= 2
    ensures Trailers(CRLF + rest, size, count) == Ok(rest)
  {
    SliceIsLine(CRLF, rest, size);
    TrailersStep(CRLF + rest, size, count, Slice(CRLF, None, rest));
  }

  lemma FieldRead(line: Bytes, later: Bytes, size: nat, count: nat)
    requires IsFieldLine(line, size) && count < MAX_TRAILERS
    ensures Trailers(line + later, size, count) == Trailers(later, size, count + 1)
  {
    SliceIsLine(line, later, size);
    LineMeans(line, size, count);
    TrailersStep(line + later, size, count, Slice(line, None, later));
  }

  lemma OneLessField(fs: seq<Bytes>, size: nat)
    requires AllFields(fs, size) && fs != []
    ensures IsFieldLine(fs[0], size) && AllFields(fs[1..], size)
  {
  }

  /** Reading passes over a field line and counts it. */
  ghost predicate PassesOver<T>(read: (Bytes, nat) -> T, line: Bytes, later: Bytes, size: nat, count: nat) {
    IsFieldLine(line, size) && count < MAX_TRAILERS ==> read(line + later, count) == read(later, count + 1)
  }

  ghost predicate PassesFields<T>(read: (Bytes, nat) -> T, size: nat) {
    forall line: Bytes, later: Bytes, count: nat :: PassesOver(read, line, later, size, count)
  }

  lemma {:induction false} FieldsPassed<T>(read: (Bytes, nat) -> T, fs: seq<Bytes>, tail: Bytes, size: nat, count: nat)
    requires PassesFields(read, size) && AllFields(fs, size) && count + |fs| <= MAX_TRAILERS
    ensures read(Lines(fs, tail), count) == read(tail, count + |fs|)
    decreases |fs|
  {
    if fs != [] {
      OneLessField(fs, size);
      assert PassesOver(read, fs[0], Lines(fs[1..], tail), size, count);
      FieldsPassed(read, fs[1..], tail, size, count + 1);
    }
  }

  function Reading(size: nat): (Bytes, nat) -> Result<Bytes> {
    (b: Bytes, count: nat) => Trailers(b, size, count)
  }

  lemma ReadingPasses(read: (Bytes, nat) -> Result<Bytes>, line: Bytes, later: Bytes, size: nat, count: nat)
    requires read == Reading(size)
    ensures PassesOver(read, line, later, size, count)
  {
    if IsFieldLine(line, size) && count < MAX_TRAILERS {
      FieldRead(line, later, size, count);
    }
  }

  lemma TrailersPassFields(read: (Bytes, nat) -> Result<Bytes>, size: nat)
    requires read == Reading(size)
    ensures PassesFields(read, size)
  {
    forall line: Bytes, later: Bytes, count: nat
      ensures PassesOver(read, line, later, size, count)
    {
      ReadingPasses(read, line, later, size, count);
    }
  }

  /** Field lines and an empty line are read as a trailer section. */
  lemma FieldsRead(fs: seq<Bytes>, rest: Bytes, size: nat)
    requires AllFields(fs, size) && |fs| <= MAX_TRAILERS && size >= 2
    ensures Trailers(Lines(fs, CRLF + rest), size, 0) == Ok(rest)
  {
    TrailersPassFields(Reading(size), size);
    FieldsPassed(Reading(size), fs, CRLF + rest, size, 0);
    EmptyLineRead(rest, size, |fs|);
  }

  /** What an accepted trailer section begins with. */
  lemma AcceptedStep(b: Bytes, size: nat, count: nat) returns (line: Bytes, later: Bytes)
    requires count <= MAX_TRAILERS && Trailers(b, size, count).Ok?
    ensures b == line + later && |later| < |b|
    ensures || (line == CRLF && Trailers(b, size, count) == Ok(later))
            || (&& IsFieldLine(line, size) && count < MAX_TRAILERS
                && Trailers(b, size, count) == Trailers(later, size, count + 1))
  {
    var s := ReadSliceOf(b, size);
    line, later := s.line, s.rest;
    LineIsSlice(b, size);
    assert |line + later| == |b|;
    LineMeans(line, size, count);
    TrailersStep(b, size, count, s);
  }

  lemma {:induction false} ReadFields(b: Bytes, size: nat, count: nat) returns (fs: seq<Bytes>)
    requires count <= MAX_TRAILERS && Trailers(b, size, count).Ok?
    ensures AllFields(fs, size) && count + |fs| <= MAX_TRAILERS
    ensures b == Lines(fs, CRLF + Trailers(b, size, count).value)
    decreases |b|
  {
    var line, later := AcceptedStep(b, size, count);
    if line == CRLF && Trailers(b, size, count) == Ok(later) {
      fs := [];
    } else {
      var more := ReadFields(later, size, count + 1);
      fs := [line] + more;
      OneMoreField(line, more, CRLF + Trailers(b, size, count).value, size);
    }
  }

  // ---- Complete bodies and cut ones ----

  /** Chunks, a line that states zero, field lines, an empty line, and what follows the body. */
  datatype Body = Body(chunks: seq<Piece>, last: Bytes, fields: seq<Bytes>, rest: Bytes)

  ghost predicate Ends(b: Body, tail: Bytes, size: nat) {
    && States(b.last, 0, size) && AllFields(b.fields, size) && |b.fields| <= MAX_TRAILERS
    && tail == b.last + Lines(b.fields, CRLF + b.rest)
  }

  ghost predicate Spells(b: Body, input: Bytes, size: nat) {
    Stated(b.chunks, Rule(size)) && exists tail: Bytes :: Ends(b, tail, size) && input == Written(b.chunks, tail)
  }

  /** Chunks, and then the start of a size line, or a size line and fewer bytes than it states. */
  datatype CutBody =
    | InLine(chunks: seq<Piece>, part: Bytes)
    | InData(chunks: seq<Piece>, line: Bytes, data: Bytes, n: nat)

  ghost predicate CutsAt(c: CutBody, input: Bytes, size: nat) {
    && Stated(c.chunks, Rule(size))
    && match c
       case InLine(cs, part) =>
         LF !in part && (|part| < size || |part| <= MAX_CHUNK_LINE) && input == Written(cs, part)
       case InData(cs, line, data, n) =>
         States(line, n, size) && |data| < n && input == Written(cs, line + data)
  }

  function Delivered(c: CutBody): Bytes {
    if c.InLine? then Payload(c.chunks) else Payload(c.chunks) + c.data
  }

  lemma EndIsRead(b: Body, tail: Bytes, size: nat)
    requires size > 0 && Ends(b, tail, size)
    ensures StartOf(tail, size) == Stop(Complete, b.rest)
  {
    StatedRead(b.last, 0, Lines(b.fields, CRLF + b.rest), size);
    FieldsRead(b.fields, b.rest, size);
  }

  lemma BodyIsRead(b: Body, input: Bytes, size: nat)
    requires size > 0 && Spells(b, input, size)
    ensures Streaming(input, size) == Streamed(Payload(b.chunks), Complete, b.rest)
  {
    var tail: Bytes :| Ends(b, tail, size) && input == Written(b.chunks, tail);
    StrictFollows(size);
    PiecesAhead(Strict(size), Rule(size), b.chunks, tail);
    EndIsRead(b, tail, size);
    assert Strict(size).start(tail) == Stop(Complete, b.rest);
    assert Payload(b.chunks) + [] == Payload(b.chunks);
  }

  lemma CutIsRead(c: CutBody, input: Bytes, size: nat)
    requires size > 0 && CutsAt(c, input, size)
    ensures Streaming(input, size) == Streamed(Delivered(c), Stopped(EndOfInput), [])
  {
    StrictFollows(size);
    match c
    case InLine(cs, part) =>
      PiecesAhead(Strict(size), Rule(size), cs, part);
      LineEnds(part, size);
      assert Strict(size).start(part) == Stop(Stopped(EndOfInput), []);
      assert Payload(cs) + [] == Payload(cs);
    case InData(cs, line, data, n) =>
      PiecesAhead(Strict(size), Rule(size), cs, line + data);
      assert Rule(size)(line, n);
      assert Strict(size).start(line + data) == Go(n, data);
  }

  lemma CompleteStart(tail: Bytes, size: nat, l: Line, s: Start<End>)
    requires size > 0 && l == ChunkLine(tail, size) && s == StartOf(tail, size) && s.Stop? && s.end == Complete
    ensures l.line.Ok? && SizeOf(l.line.value) == Ok(0) && Trailers(l.rest, size, 0) == Ok(s.rest)
  {
  }

  lemma CompleteIsSpelled(cs: seq<Piece>, tail: Bytes, size: nat)
    requires size > 0 && Stated(cs, Rule(size)) && StartOf(tail, size).Stop? && StartOf(tail, size).end == Complete
    ensures exists b: Body :: Spells(b, Written(cs, tail), size)
  {
    var l := ChunkLine(tail, size);
    CompleteStart(tail, size, l, StartOf(tail, size));
    ReadLine(tail, size);
    var fs := ReadFields(l.rest, size, 0);
    var b := Body(cs, l.line.value, fs, StartOf(tail, size).rest);
    assert Ends(b, tail, size);
    assert Spells(b, Written(cs, tail), size);
  }

  lemma CutIsSpelled(cs: seq<Piece>, tail: Bytes, size: nat)
    requires size > 0 && Stated(cs, Rule(size)) && Streaming(tail, size).end == Stopped(EndOfInput)
    requires AtEnd(Strict(size), tail)
    ensures exists c: CutBody :: CutsAt(c, Written(cs, tail), size)
  {
    var s := StartOf(tail, size);
    assert Strict(size).start(tail) == s;
    if s.Go? {
      OneChunk(Strict(size), tail, s.n, s.rest);
      ReadLine(tail, size);
      assert CutsAt(InData(cs, ChunkLine(tail, size).line.value, s.rest, s.n), Written(cs, tail), size);
    } else {
      EofOnlyAtLine(tail, size);
      LineEnds(tail, size);
      assert CutsAt(InLine(cs, tail), Written(cs, tail), size);
    }
  }

  lemma EndIsSpelled(input: Bytes, size: nat)
    requires size > 0
    ensures Streaming(input, size).end == Complete ==> exists b: Body :: Spells(b, input, size)
    ensures Streaming(input, size).end == Stopped(EndOfInput) ==> exists c: CutBody :: CutsAt(c, input, size)
  {
    StrictFollows(size);
    var cs, tail := Parse(Strict(size), Rule(size), input);
    var s := Strict(size).start(tail);
    if Streaming(input, size).end == Complete {
      if s.Go? {
        OneChunk(Strict(size), tail, s.n, s.rest);
      }
      CompleteIsSpelled(cs, tail, size);
    }
    if Streaming(input, size).end == Stopped(EndOfInput) {
      CutIsSpelled(cs, tail, size);
    }
  }

  /** What the strict reader accepts as complete, and which other inputs it ends with io.EOF. */
  lemma StrictEndMeans(input: Bytes, size: nat)
    requires size > 0
    ensures Streaming(input, size).end == Complete <==> exists b: Body :: Spells(b, input, size)
    ensures Streaming(input, size).end == Stopped(EndOfInput) <==> exists c: CutBody :: CutsAt(c, input, size)
  {
    EndIsSpelled(input, size);
    if b: Body :| Spells(b, input, size) {
      BodyIsRead(b, input, size);
    }
    if c: CutBody :| CutsAt(c, input, size) {
      CutIsRead(c, input, size);
    }
  }

  /**
   io.EOF from the strict reader means that the lenient whole-body decoder accepts the input with the same
   payload exactly if the input spells a complete body.
   */
  lemma StrictMeansLenient(input: Bytes, size: nat)
    requires size > 0 && |input| <= MAX_INT && Reported(Streaming(input, size).end) == EndOfInput
    ensures var d := ChunkLenient.ReadBody(input, size, 0, []);
            (d.err.None? && d.body == Streaming(input, size).body) <==> exists b: Body :: Spells(b, input, size)
  {
    StrictEndMeans(input, size);
    StrictThenLenient(input, size);
    ChunkLenient.DecodersAgree(input, size);
  }
}
