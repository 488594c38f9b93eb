/**
 Chunked bodies as they are written down, for any rule of what a size line states: which inputs are
 chunks followed by something else, and what a stream makes of them.
 */
module ChunkGrammar {
  import opened Common
  import opened Octets
  import opened Bufio
  import opened ChunkStream

  // ---- Lines ----

  /** A line: its last byte is its only LF. */
  predicate IsLine(line: Bytes) {
    line != [] && line[|line| - 1] == LF && LF !in line[..|line| - 1]
  }

  lemma LineIndex(line: Bytes, tail: Bytes)
    requires IsLine(line)
    ensures IndexOf(line + tail, LF) == |line| - 1
  {
    var text := line[..|line| - 1];
    forall j | 0 <= j < |line| - 1
      ensures (line + tail)[j] != LF
    {
      assert text[j] in text;
    }
    IndexAt(line + tail, LF, |line| - 1);
  }

  lemma UpToLf(b: Bytes)
    requires IndexOf(b, LF) < |b|
    ensures IsLine(b[..IndexOf(b, LF) + 1])
  {
    IndexMeans(b, LF);
  }

  /** A line that fits the buffer is what ReadSlice returns, and nothing else is. */
  lemma SliceIsLine(line: Bytes, tail: Bytes, size: nat)
    requires IsLine(line) && |line| <= size
    ensures ReadSliceOf(line + tail, size) == Slice(line, None, tail)
  {
    LineIndex(line, tail);
    assert (line + tail)[..|line|] == line && (line + tail)[|line|..] == tail;
  }

  lemma LineIsSlice(b: Bytes, size: nat)
    requires ReadSliceOf(b, size).err.None?
    ensures IsLine(ReadSliceOf(b, size).line) && |ReadSliceOf(b, size).line| <= size
  {
    UpToLf(b);
  }

  lemma NoLf(b: Bytes)
    ensures LF !in b <==> IndexOf(b, LF) == |b|
  {
    IndexMeans(b, LF);
  }

  // ---- Chunks ----

  /** A chunk as it is written: a size line, and data that a line end follows. */
  datatype Piece = Piece(line: Bytes, data: Bytes)

  /** Chunks, and what comes after them. */
  function Written(cs: seq<Piece>, tail: Bytes): Bytes {
    if cs == [] then tail else cs[0].line + (cs[0].data + (CRLF + Written(cs[1..], tail)))
  }

  function Payload(cs: seq<Piece>): Bytes {
    if cs == [] then [] else cs[0].data + Payload(cs[1..])
  }

  /** Every chunk has data, as many bytes as its line states. */
  predicate Stated(cs: seq<Piece>, states: (Bytes, nat) -> bool) {
    forall i | 0 <= i < |cs| :: cs[i].data != [] && states(cs[i].line, |cs[i].data|)
  }

  /** Reading goes on exactly behind the lines that state a size above zero. */
  ghost predicate Follows<E>(rules: Rules<E>, states: (Bytes, nat) -> bool) {
    && (forall line: Bytes, n: nat, t: Bytes | n > 0 && states(line, n) :: rules.start(line + t) == Go(n, t))
    && (forall b: Bytes | rules.start(b).Go? :: Headed(b, rules.start(b), states))
  }

  predicate Headed<E>(b: Bytes, s: Start<E>, states: (Bytes, nat) -> bool)
    requires s.Go?
  {
    |s.rest| <= |b| && b == b[..|b| - |s.rest|] + s.rest && states(b[..|b| - |s.rest|], s.n)
  }

  lemma PieceAhead<E>(rules: Rules<E>, states: (Bytes, nat) -> bool, c: Piece, later: Bytes)
    requires Sound(rules) && Follows(rules, states) && Stated([c], states)
    ensures Stream(rules, c.line + (c.data + (CRLF + later)), 0) == Deliver(c.data, Stream(rules, later, 0))
  {
    var n, rest := |c.data|, c.data + (CRLF + later);
    assert [c][0] == c;
    assert rest[..n] == c.data && rest[n..n + 2] == CRLF && rest[n + 2..] == later;
    OneChunk(rules, c.line + rest, n, rest);
  }

  /** Written chunks are delivered, and then what comes after them is read. */
  lemma {:induction false} PiecesAhead<E>(rules: Rules<E>, states: (Bytes, nat) -> bool, cs: seq<Piece>, tail: Bytes)
    requires Sound(rules) && Follows(rules, states) && Stated(cs, states)
    ensures Stream(rules, Written(cs, tail), 0) == Deliver(Payload(cs), Stream(rules, tail, 0))
    decreases |cs|
  {
    var t := Stream(rules, tail, 0);
    if cs == [] {
      assert [] + t.body == t.body;
    } else {
      var c, later := cs[0], cs[1..];
      assert [c][0] == cs[0];
      PiecesAhead(rules, states, later, tail);
      PieceAhead(rules, states, c, Written(later, tail));
      DeliverTwice(c.data, Payload(later), t);
    }
  }

  /** Where the chunks of an input end: at a line that states none, or at a chunk that is not complete. */
  ghost predicate AtEnd<E>(rules: Rules<E>, tail: Bytes) {
    rules.start(tail).Go? ==> !HasLineEnd(rules.start(tail).rest, rules.start(tail).n)
  }

  /** Every input is chunks up to such a place. */
  lemma {:induction false} Parse<E>(rules: Rules<E>, states: (Bytes, nat) -> bool, input: Bytes)
    returns (cs: seq<Piece>, tail: Bytes)
    requires Sound(rules) && Follows(rules, states)
    ensures Stated(cs, states) && input == Written(cs, tail) && AtEnd(rules, tail)
    ensures Stream(rules, input, 0) == Deliver(Payload(cs), Stream(rules, tail, 0))
    decreases |input|
  {
    var s := rules.start(input);
    if s.Go? && HasLineEnd(s.rest, s.n) {
      var line, data, later := input[..|input| - |s.rest|], s.rest[..s.n], s.rest[s.n + 2..];
      assert s.rest == data + (CRLF + later);
      var more;
      more, tail := Parse(rules, states, later);
      cs := [Piece(line, data)] + more;
      assert cs[1..] == more;
      assert Headed(input, s, states);
    } else {
      cs, tail := [], input;
    }
    PiecesAhead(rules, states, cs, tail);
  }
}
