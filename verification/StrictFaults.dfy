/**
 Which error the strict reader stops with, and what it has delivered by then: both as conditions on the bytes.
 */
module StrictFaults {
  import opened Common
  import opened Octets
  import opened Bufio
  import opened ChunkExt
  import opened ChunkStream
  import opened ChunkGrammar
  import opened ChunkStrict
  import opened StrictBodies
  import ChunkLenient
  import ChunkSizes

  // ---- Lines of the trailer section ----

  predicate EndsRight(line: Bytes) {
    |line| >= 2 && line[|line| - 2..] == CRLF
  }

  /** A reserved name and a colon. */
  ghost predicate IsBanned(text: Bytes) {
    exists c: nat :: NamesReserved(text, c)
  }

  predicate NamesReserved(text: Bytes, c: nat) {
    c < |text| && text[c] == ':' as int && IsName(text[..c]) && IsReserved(text[..c])
  }

  /** A line that is no field: a reserved name is told apart from everything else. */
  ghost predicate BadText(text: Bytes, e: StrictError) {
    if IsBanned(text) then e == ForbiddenTrailer else !IsField(text) && e == InvalidTrailer
  }

  /** What is wrong with a line that comes after `count` fields. */
  ghost predicate BadTrailer(line: Bytes, count: nat, e: StrictError) {
    if !EndsRight(line) then e == Boundary
    else if count >= 64 then line != CRLF && e == InvalidTrailer
    else line != CRLF && BadText(line[..|line| - 2], e)
  }

  lemma NameIsFirst(text: Bytes, c: nat)
    requires c < |text| && text[c] == ':' as int && IsName(text[..c])
    ensures IndexOf(text, COLON) == c > 0 && IsToken(text[..c]) && !IsBlank(text[0]) && !IsBlank(text[c - 1])
  {
    NameMeans(text[..c]);
    forall j | 0 <= j < c
      ensures text[j] != COLON && !IsBlank(text[j])
    {
      assert IsTokenByte(text[..c][j]);
    }
    IndexAt(text, COLON, c);
  }

  lemma BannedMeans(text: Bytes)
    requires text != []
    ensures TrailerError(text) == Some(ForbiddenTrailer) <==> IsBanned(text)
  {
    var c := IndexOf(text, COLON);
    IndexMeans(text, COLON);
    if TrailerError(text) == Some(ForbiddenTrailer) {
      NameMeans(text[..c]);
      ReservedMeans(text[..c]);
      assert NamesReserved(text, c);
    }
    if d: nat :| NamesReserved(text, d) {
      NameIsFirst(text, d);
      ReservedMeans(text[..d]);
    }
  }

  lemma BadTextMeans(text: Bytes, e: StrictError)
    requires text != []
    ensures TrailerError(text) == Some(e) <==> BadText(text, e)
  {
    BannedMeans(text);
    FieldMeans(text);
  }

  lemma RightMeans(line: Bytes)
    ensures EndsRight(line) <==> ChunkLenient.EndsInCRLF(line)
    ensures EndsRight(line) ==> (line == CRLF <==> line[..|line| - 2] == [])
  {
  }

  lemma LineCases(line: Bytes, count: nat, e: StrictError)
    ensures !EndsRight(line) ==> LineOf(line, count) == BadLine(Boundary)
    ensures line == CRLF ==> LineOf(line, count) == LastLine
    ensures EndsRight(line) && line != CRLF && count >= 64 ==> LineOf(line, count) == BadLine(InvalidTrailer)
    ensures EndsRight(line) && line != CRLF && count < 64 ==>
              (LineOf(line, count) == BadLine(e) <==> TrailerError(line[..|line| - 2]) == Some(e))
  {
    RightMeans(line);
  }

  lemma BadTrailerMeans(line: Bytes, count: nat, e: StrictError, t: TrailerLine)
    requires t == LineOf(line, count)
    ensures t == BadLine(e) <==> BadTrailer(line, count, e)
  {
    LineCases(line, count, e);
    if EndsRight(line) && line != CRLF {
      RightMeans(line);
      BadTextMeans(line[..|line| - 2], e);
    }
  }

  // ---- The trailer section ----

  /** A line in front that fits the buffer. */
  predicate Fits(b: Bytes, line: Bytes, rest: Bytes, size: nat) {
    IsLine(line) && |line| <= size && b == line + rest
  }

  /** What comes after `count` fields is cut, or too long for the buffer, or not a field. */
  ghost predicate Breaks(b: Bytes, size: nat, count: nat, e: StrictError) {
    || (LF !in b && |b| < size && e == UnexpectedEof)
    || (|b| >= size && LF !in b[..size] && e == LineTooLong)
    || exists line: Bytes, rest: Bytes :: Fits(b, line, rest, size) && BadTrailer(line, count, e)
  }

  /** Up to 64 fields, and then something else than the empty line. */
  ghost predicate TrailerFault(b: Bytes, size: nat, e: StrictError) {
    exists fs: seq<Bytes>, tail: Bytes ::
      AllFields(fs, size) && |fs| <= 64 && b == Lines(fs, tail) && Breaks(tail, size, |fs|, e)
  }

  /** How ReadSlice ends, by where the LF is. */
  lemma SliceCases(b: Bytes, size: nat, s: Slice)
    requires s == ReadSliceOf(b, size)
    ensures s.err == Some(Eof) <==> LF !in b && |b| < size
    ensures s.err == Some(BufferFull) <==> |b| >= size && LF !in b[..size]
    ensures s.err.None? ==> Fits(b, s.line, s.rest, size)
  {
    IndexMeans(b, LF);
    NoLf(b);
    if s.err.None? {
      LineIsSlice(b, size);
      assert |b| >= size ==> b[..size][IndexOf(b, LF)] == LF;
    }
  }

  lemma FitsIsSlice(b: Bytes, line: Bytes, rest: Bytes, size: nat)
    requires Fits(b, line, rest, size)
    ensures ReadSliceOf(b, size) == Slice(line, None, rest)
  {
    SliceIsLine(line, rest, size);
  }

  lemma BreakIsRead(b: Bytes, size: nat, count: nat, e: StrictError)
    requires Breaks(b, size, count, e)
    ensures Trailers(b, size, count) == Err(e)
  {
    var s := ReadSliceOf(b, size);
    SliceCases(b, size, s);
    if line: Bytes, rest: Bytes :| Fits(b, line, rest, size) && BadTrailer(line, count, e) {
      FitsIsSlice(b, line, rest, size);
      BadTrailerMeans(line, count, e, LineOf(line, count));
    }
  }

  /** Reading the section goes no further than here. */
  predicate Halts(b: Bytes, size: nat, count: nat) {
    var s := ReadSliceOf(b, size);
    s.err.Some? || LineOf(s.line, count) != FieldLine
  }

  lemma HaltBreaks(b: Bytes, size: nat, count: nat, e: StrictError)
    requires Halts(b, size, count) && Trailers(b, size, count) == Err(e)
    ensures Breaks(b, size, count, e)
  {
    var s := ReadSliceOf(b, size);
    SliceCases(b, size, s);
    if s.err.None? {
      BadTrailerMeans(s.line, count, e, LineOf(s.line, count));
    }
  }

  lemma FieldStep(b: Bytes, size: nat, count: nat, s: Slice)
    requires s == ReadSliceOf(b, size) && !Halts(b, size, count)
    ensures b == s.line + s.rest && |s.rest| < |b| && IsFieldLine(s.line, size) && count < MAX_TRAILERS
    ensures Trailers(b, size, count) == Trailers(s.rest, size, count + 1)
  {
    LineIsSlice(b, size);
    assert |s.line + s.rest| == |b|;
    LineMeans(s.line, size, count);
    TrailersStep(b, size, count, s);
  }

  lemma {:induction false} FieldsAhead(b: Bytes, size: nat, count: nat) returns (fs: seq<Bytes>, tail: Bytes)
    requires count <= MAX_TRAILERS
    ensures AllFields(fs, size) && count + |fs| <= MAX_TRAILERS && b == Lines(fs, tail)
    ensures Halts(tail, size, count + |fs|) && Trailers(b, size, count) == Trailers(tail, size, count + |fs|)
    decreases |b|
  {
    var s := ReadSliceOf(b, size);
    if Halts(b, size, count) {
      fs, tail := [], b;
    } else {
      FieldStep(b, size, count, s);
      var more;
      more, tail := FieldsAhead(s.rest, size, count + 1);
      fs := [s.line] + more;
      OneMoreField(s.line, more, tail, size);
    }
  }

  /** The trailer section is refused with `e` exactly if it is fields and a break that gives `e`. */
  lemma TrailerFaultMeans(b: Bytes, size: nat, e: StrictError)
    ensures Trailers(b, size, 0) == Err(e) <==> TrailerFault(b, size, e)
  {
    if Trailers(b, size, 0) == Err(e) {
      var fs, tail := FieldsAhead(b, size, 0);
      HaltBreaks(tail, size, |fs|, e);
    }
    if TrailerFault(b, size, e) {
      var fs: seq<Bytes>, tail: Bytes :|
        AllFields(fs, size) && |fs| <= 64 && b == Lines(fs, tail) && Breaks(tail, size, |fs|, e);
      TrailersPassFields(Reading(size), size);
      FieldsPassed(Reading(size), fs, tail, size, 0);
      BreakIsRead(tail, size, |fs|, e);
    }
  }

  // ---- Size lines ----

  /** No line end among the bytes that a size line may have, and more bytes than that. */
  predicate TooLong(b: Bytes, size: nat) {
    var m := if size <= 16384 then size else 16384;
    |b| >= m && LF !in b[..m] && (LF in b || (|b| >= size && |b| > 16384))
  }

  predicate FitsLimit(b: Bytes, line: Bytes, rest: Bytes, size: nat) {
    Fits(b, line, rest, size) && |line| <= 16384
  }

  lemma {:induction false} LongLineErrors(b: Bytes, size: nat, total: nat)
    requires size > 0
    ensures LongLine(b, size, total).line in {Err(InvalidSize), Err(EndOfInput)}
    decreases |b|
  {
    var s := ReadSliceOf(b, size);
    assert |s.line + s.rest| == |b|;
    if LongLineError(s.err, total + |s.line|).None? {
      LongLineErrors(s.rest, size, total + |s.line|);
    }
  }

  lemma LineErrors(b: Bytes, size: nat)
    requires size > 0
    ensures ChunkLine(b, size).line.Ok? || ChunkLine(b, size).line in {Err(InvalidSize), Err(EndOfInput)}
  {
    var s := ReadSliceOf(b, size);
    if s.err == Some(BufferFull) {
      LongLineErrors(s.rest, size, |s.line|);
    }
  }

  lemma LineIsFit(b: Bytes, size: nat, l: Line)
    requires size > 0 && l == ChunkLine(b, size)
    ensures l.line.Ok? ==> FitsLimit(b, l.line.value, l.rest, size)
    ensures l.line.Ok? ==> !TooLong(b, size)
  {
    if l.line.Ok? {
      ReadLine(b, size);
      var k := |l.line.value| - 1;
      assert b[k] == l.line.value[k] == LF;
      var m := if size <= 16384 then size else 16384;
      assert |b| >= m ==> b[..m][k] == LF;
    }
  }

  lemma FitIsLine(b: Bytes, line: Bytes, rest: Bytes, size: nat)
    requires size > 0 && FitsLimit(b, line, rest, size)
    ensures ChunkLine(b, size) == Line(Ok(line), rest)
  {
    LineRead(line, rest, size);
  }

  lemma LfLine(b: Bytes, j: nat)
    requires j == IndexOf(b, LF) && j < |b|
    ensures Fits(b, b[..j + 1], b[j + 1..], j + 1)
  {
    UpToLf(b);
  }

  lemma FirstLfFits(b: Bytes, size: nat, j: nat)
    requires size > 0 && j == IndexOf(b, LF) && j < |b| && j < size && j < 16384
    ensures ChunkLine(b, size).line.Ok?
  {
    LfLine(b, j);
    FitIsLine(b, b[..j + 1], b[j + 1..], size);
  }

  /** Without a LF among the bytes that a size line may have, no line fits. */
  lemma NothingFits(b: Bytes, size: nat)
    requires size > 0 && ChunkLine(b, size).line == Err(InvalidSize)
    ensures TooLong(b, size)
  {
    LineEnds(b, size);
    IndexMeans(b, LF);
    NoLf(b);
    var m, j := if size <= 16384 then size else 16384, IndexOf(b, LF);
    if j < |b| && j < m {
      FirstLfFits(b, size, j);
    }
    assert forall i | 0 <= i < |b| && i < m :: b[i] != LF;
  }

  /** A size line is refused for its length exactly if it is too long. */
  lemma TooLongMeans(b: Bytes, size: nat, l: Line)
    requires size > 0 && l == ChunkLine(b, size)
    ensures l.line == Err(InvalidSize) <==> TooLong(b, size)
  {
    LineErrors(b, size);
    LineIsFit(b, size, l);
    LineEnds(b, size);
    if l.line == Err(InvalidSize) {
      NothingFits(b, size);
    }
  }

  /** A line that states no size: without its line end, or with anything else than the form of a size line. */
  ghost predicate BadSizeLine(line: Bytes, e: StrictError) {
    if !EndsRight(line) then e == Boundary else (forall n: nat :: !ChunkSizes.Strict(line, n)) && e == InvalidSize
  }

  lemma SizeErrors(line: Bytes)
    ensures SizeOf(line).Err? ==> SizeOf(line).error == if EndsRight(line) then InvalidSize else Boundary
    ensures SizeOf(line).Ok? ==> EndsRight(line)
  {
  }

  lemma BadSizeMeans(line: Bytes, e: StrictError)
    ensures SizeOf(line) == Err(e) <==> BadSizeLine(line, e)
  {
    SizeErrors(line);
    forall n: nat
      ensures SizeOf(line) == Ok(n) <==> ChunkSizes.Strict(line, n)
    {
      ChunkSizes.StrictSize(line, n);
    }
    if SizeOf(line).Ok? {
      assert ChunkSizes.Strict(line, SizeOf(line).value);
    }
  }

  // ---- Bodies ----

  /** Where a body goes wrong, after its complete chunks. */
  datatype Place =
    | NoLine
    | LongSize
    | BadSize(line: Bytes, rest: Bytes)
    | BadSection(line: Bytes, rest: Bytes)
    | ShortData(line: Bytes, n: nat, rest: Bytes)
    | BadLineEnd(line: Bytes, n: nat, rest: Bytes)

  ghost predicate FaultAt(p: Place, tail: Bytes, size: nat, e: StrictError) {
    match p
    case NoLine => LF !in tail && (|tail| < size || |tail| <= 16384) && e == EndOfInput
    case LongSize => TooLong(tail, size) && e == InvalidSize
    case BadSize(line, rest) => FitsLimit(tail, line, rest, size) && BadSizeLine(line, e)
    case BadSection(line, rest) =>
      FitsLimit(tail, line, rest, size) && ChunkSizes.Strict(line, 0) && TrailerFault(rest, size, e)
    case ShortData(line, n, rest) =>
      FitsLimit(tail, line, rest, size) && ChunkSizes.Strict(line, n) && |rest| < n && e == EndOfInput
    case BadLineEnd(line, n, rest) =>
      && FitsLimit(tail, line, rest, size) && ChunkSizes.Strict(line, n) && 0 < n <= |rest|
      && !(|rest| >= n + 2 && rest[n..n + 2] == CRLF) && e == Boundary
  }

  /** What is delivered of a chunk that is not complete. */
  function Partly(p: Place): Bytes {
    match p
    case ShortData(_, _, rest) => rest
    case BadLineEnd(_, n, rest) => if n <= |rest| then rest[..n] else rest
    case _ => []
  }

  ghost predicate Goes(tail: Bytes, size: nat, body: Bytes, e: StrictError)
    requires size > 0
  {
    Streaming(tail, size).body == body && Streaming(tail, size).end == Stopped(e)
  }

  lemma StopGoes(tail: Bytes, size: nat, e: StrictError, s: Start<End>)
    requires size > 0 && s == StartOf(tail, size) && s.Stop?
    ensures Goes(tail, size, [], e) <==> s.end == Stopped(e)
    ensures Streaming(tail, size).body == []
  {
    assert Strict(size).start(tail) == s;
  }

  lemma GoGoes(tail: Bytes, size: nat, n: nat, rest: Bytes)
    requires size > 0 && n > 0 && StartOf(tail, size) == Go(n, rest)
    ensures |rest| < n ==> Goes(tail, size, rest, EndOfInput)
    ensures n <= |rest| && !HasLineEnd(rest, n) ==> Goes(tail, size, rest[..n], Boundary)
  {
    assert Strict(size).start(tail) == Go(n, rest);
    assert Stream(Strict(size), tail, 0) == Stream(Strict(size), rest, n);
  }

  /** Where reading starts, by what the size line is. */
  lemma StartCases(tail: Bytes, size: nat, l: Line)
    requires size > 0 && l == ChunkLine(tail, size)
    ensures var s := StartOf(tail, size);
            && (l.line.Err? ==> s == Stop(Stopped(l.line.error), l.rest))
            && (l.line.Ok? && SizeOf(l.line.value).Err? ==> s == Stop(Stopped(SizeOf(l.line.value).error), l.rest))
            && (forall n: nat | l.line.Ok? && SizeOf(l.line.value) == Ok(n) && n > 0 :: s == Go(n, l.rest))
  {
  }

  lemma SectionStart(tail: Bytes, size: nat, l: Line, t: Result<Bytes>)
    requires size > 0 && l == ChunkLine(tail, size) && l.line.Ok? && SizeOf(l.line.value) == Ok(0)
    requires t == Trailers(l.rest, size, 0)
    ensures StartOf(tail, size) == if t.Ok? then Stop(Complete, t.value) else Stop(Stopped(t.error), [])
  {
  }

  lemma FaultAtLine(p: Place, tail: Bytes, size: nat, e: StrictError)
    requires size > 0 && FaultAt(p, tail, size, e) && (p.NoLine? || p.LongSize?)
    ensures Goes(tail, size, [], e)
  {
    var l := ChunkLine(tail, size);
    LineEnds(tail, size);
    TooLongMeans(tail, size, l);
    StartCases(tail, size, l);
    StopGoes(tail, size, e, StartOf(tail, size));
  }

  lemma FaultInLine(p: Place, tail: Bytes, size: nat, e: StrictError)
    requires size > 0 && FaultAt(p, tail, size, e) && (p.BadSize? || p.BadSection?)
    ensures Goes(tail, size, [], e)
  {
    var l := ChunkLine(tail, size);
    FitIsLine(tail, p.line, p.rest, size);
    if p.BadSize? {
      BadSizeMeans(p.line, e);
      StartCases(tail, size, l);
    } else {
      ChunkSizes.StrictSize(p.line, 0);
      TrailerFaultMeans(p.rest, size, e);
      SectionStart(tail, size, l, Trailers(p.rest, size, 0));
    }
    StopGoes(tail, size, e, StartOf(tail, size));
  }

  lemma FaultInData(p: Place, tail: Bytes, size: nat, e: StrictError)
    requires size > 0 && FaultAt(p, tail, size, e) && (p.ShortData? || p.BadLineEnd?)
    ensures Goes(tail, size, Partly(p), e)
  {
    FitIsLine(tail, p.line, p.rest, size);
    ChunkSizes.StrictSize(p.line, p.n);
    StartCases(tail, size, ChunkLine(tail, size));
    GoGoes(tail, size, p.n, p.rest);
  }

  /** A place that is wrong is where reading stops. */
  lemma FaultStops(p: Place, tail: Bytes, size: nat, e: StrictError)
    requires size > 0 && FaultAt(p, tail, size, e)
    ensures Goes(tail, size, Partly(p), e)
  {
    if p.NoLine? || p.LongSize? {
      FaultAtLine(p, tail, size, e);
    } else if p.BadSize? || p.BadSection? {
      FaultInLine(p, tail, size, e);
    } else {
      FaultInData(p, tail, size, e);
    }
  }

  /** Where reading stops something is wrong. */
  lemma StopAtLine(tail: Bytes, size: nat, e: StrictError, l: Line) returns (p: Place)
    requires size > 0 && l == ChunkLine(tail, size) && StartOf(tail, size).Stop?
    requires StartOf(tail, size).end == Stopped(e)
    ensures FaultAt(p, tail, size, e) && Partly(p) == []
  {
    StartCases(tail, size, l);
    LineEnds(tail, size);
    TooLongMeans(tail, size, l);
    LineErrors(tail, size);
    if l.line.Err? {
      p := if e == EndOfInput then NoLine else LongSize;
    } else {
      LineIsFit(tail, size, l);
      p := StopInLine(tail, size, e, l);
    }
  }

  lemma StopInSection(tail: Bytes, size: nat, e: StrictError, l: Line, line: Bytes)
    requires size > 0 && l == ChunkLine(tail, size) && l.line == Ok(line) && SizeOf(line) == Ok(0)
    requires StartOf(tail, size).Stop? && StartOf(tail, size).end == Stopped(e)
    ensures ChunkSizes.Strict(line, 0) && TrailerFault(l.rest, size, e)
  {
    SectionStart(tail, size, l, Trailers(l.rest, size, 0));
    ChunkSizes.StrictSize(line, 0);
    TrailerFaultMeans(l.rest, size, e);
  }

  lemma StopInLine(tail: Bytes, size: nat, e: StrictError, l: Line) returns (p: Place)
    requires size > 0 && l == ChunkLine(tail, size) && StartOf(tail, size).Stop?
    requires StartOf(tail, size).end == Stopped(e)
    requires l.line.Ok? && FitsLimit(tail, l.line.value, l.rest, size)
    ensures FaultAt(p, tail, size, e) && Partly(p) == []
  {
    var line, z := l.line.value, SizeOf(l.line.value);
    StartCases(tail, size, l);
    if z.Err? {
      BadSizeMeans(line, e);
      p := BadSize(line, l.rest);
    } else {
      StopInSection(tail, size, e, l, line);
      p := BadSection(line, l.rest);
    }
  }

  lemma StopInData(tail: Bytes, size: nat, e: StrictError, n: nat, rest: Bytes) returns (p: Place)
    requires size > 0 && n > 0 && StartOf(tail, size) == Go(n, rest) && !HasLineEnd(rest, n)
    requires Streaming(tail, size).end == Stopped(e)
    ensures FaultAt(p, tail, size, e) && Streaming(tail, size).body == Partly(p)
  {
    var l := ChunkLine(tail, size);
    StartCases(tail, size, l);
    LineIsFit(tail, size, l);
    GoGoes(tail, size, n, rest);
    var line := l.line.value;
    ChunkSizes.StrictSize(line, n);
    p := if |rest| < n then ShortData(line, n, rest) else BadLineEnd(line, n, rest);
  }

  lemma StopIsFault(tail: Bytes, size: nat, e: StrictError) returns (p: Place)
    requires size > 0 && AtEnd(Strict(size), tail) && Streaming(tail, size).end == Stopped(e)
    ensures FaultAt(p, tail, size, e) && Streaming(tail, size).body == Partly(p)
  {
    var s := StartOf(tail, size);
    assert Strict(size).start(tail) == s;
    if s.Go? {
      p := StopInData(tail, size, e, s.n, s.rest);
    } else {
      StopGoes(tail, size, e, s);
      p := StopAtLine(tail, size, e, ChunkLine(tail, size));
    }
  }

  /** Complete chunks, and then a place that is wrong. */
  ghost predicate FailsAt(cs: seq<Piece>, tail: Bytes, p: Place, input: Bytes, size: nat, e: StrictError) {
    Stated(cs, Rule(size)) && input == Written(cs, tail) && FaultAt(p, tail, size, e)
  }

  /**
   The strict reader stops with an error, after delivering `body`, exactly if the input is complete chunks and then
   something that is wrong in the way of that error.
   */
  lemma StrictStopsRightly(input: Bytes, size: nat, body: Bytes, e: StrictError)
    requires size > 0
    ensures Streaming(input, size).body == body && Streaming(input, size).end == Stopped(e)
            <==> exists cs: seq<Piece>, tail: Bytes, p: Place ::
                   FailsAt(cs, tail, p, input, size, e) && body == Payload(cs) + Partly(p)
  {
    StrictFollows(size);
    if Goes(input, size, body, e) {
      var cs, tail := Parse(Strict(size), Rule(size), input);
      var p := StopIsFault(tail, size, e);
      assert FailsAt(cs, tail, p, input, size, e);
    }
    if cs: seq<Piece>, tail: Bytes, p: Place :|
      FailsAt(cs, tail, p, input, size, e) && body == Payload(cs) + Partly(p) {
      PiecesAhead(Strict(size), Rule(size), cs, tail);
      FaultStops(p, tail, size, e);
    }
  }
}
