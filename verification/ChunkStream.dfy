/**
 Reading a chunked body piece by piece, for any rule of reading size lines: what is still ahead
 of a reader, and the step that takes bytes of the current chunk.
 */
module ChunkStream {
  import opened Common
  import opened Octets
  import opened Bufio

  /** What a size line leads to: a chunk, or the end of the body in some way `E`. */
  datatype Start<E> = Go(n: nat, rest: Bytes) | Stop(end: E, rest: Bytes)

  /** How size lines are read, and how a body ends that is cut inside a chunk or lacks a chunk's line end. */
  datatype Rules<!E> = Rules(start: Bytes -> Start<E>, cut: E, noLineEnd: E)

  ghost predicate Sound<E>(rules: Rules<E>) {
    forall b: Bytes :: rules.start(b).Go? ==> rules.start(b).n > 0 && |rules.start(b).rest| < |b|
  }

  datatype Streamed<E> = Streamed(body: Bytes, end: E, rest: Bytes)

  predicate HasLineEnd(rest: Bytes, n: nat) {
    |rest| >= n + 2 && rest[n..n + 2] == CRLF
  }

  function Deliver<E>(data: Bytes, t: Streamed<E>): Streamed<E> {
    t.(body := data + t.body)
  }

  lemma DeliverTwice<E>(a: Bytes, b: Bytes, t: Streamed<E>)
    ensures Deliver(a, Deliver(b, t)) == Deliver(a + b, t)
  {
    assert a + (b + t.body) == (a + b) + t.body;
  }

  /** What reading on delivers when `left` bytes of the current chunk are still to come. */
  function Stream<E>(rules: Rules<E>, rest: Bytes, left: nat): Streamed<E>
    requires Sound(rules)
    decreases |rest|, left
  {
    if left == 0 then
      var s := rules.start(rest);
      if s.Stop? then Streamed([], s.end, s.rest) else Stream(rules, s.rest, s.n)
    else if |rest| < left then Streamed(rest, rules.cut, [])
    else if !HasLineEnd(rest, left) then Streamed(rest[..left], rules.noLineEnd, [])
    else Deliver(rest[..left], Stream(rules, rest[left + 2..], 0))
  }

  /** Part of a chunk can be taken now and the rest of it later. */
  lemma Split<E>(rules: Rules<E>, rest: Bytes, left: nat, n: nat)
    requires Sound(rules) && 0 < n < left && n <= |rest|
    ensures Stream(rules, rest, left) == Deliver(rest[..n], Stream(rules, rest[n..], left - n))
  {
    var tail := rest[n..];
    if |rest| < left {
      assert rest == rest[..n] + tail;
    } else {
      assert rest[..left] == rest[..n] + tail[..left - n];
      if |rest| >= left + 2 {
        assert tail[left - n..left - n + 2] == rest[left..left + 2];
        assert tail[left - n + 2..] == rest[left + 2..];
        var later := Stream(rules, rest[left + 2..], 0).body;
        assert rest[..left] + later == rest[..n] + (tail[..left - n] + later);
      }
    }
  }

  /** A chunk that is there as a whole, or not. */
  lemma OneChunk<E>(rules: Rules<E>, rest: Bytes, n: nat, data: Bytes)
    requires Sound(rules) && rules.start(rest) == Go(n, data)
    ensures HasLineEnd(data, n) ==> Stream(rules, rest, 0) == Deliver(data[..n], Stream(rules, data[n + 2..], 0))
    ensures !HasLineEnd(data, n) ==> Stream(rules, rest, 0).end == if |data| < n then rules.cut else rules.noLineEnd
  {
    assert Stream(rules, rest, 0) == Stream(rules, data, n);
  }

  datatype Outcome = More | Cut | NoLineEnd

  function EndFor<E>(rules: Rules<E>, o: Outcome): E
    requires o != More
  {
    if o == Cut then rules.cut else rules.noLineEnd
  }

  method ReadCrLf(r: Reader) returns (ok: bool)
    modifies r
    ensures ok <==> HasLineEnd(old(r.rest), 0)
    ensures ok ==> r.rest == old(r.rest)[2..]
  {
    var b1 := r.ReadByte();
    var b2 := r.ReadByte();
    ok := b1 == Some(CR) && b2 == Some(LF);
  }

  /** Takes up to `want` bytes of the current chunk, and its line end with the last of them. */
  method Take<E>(r: Reader, left: nat, want: nat, ghost rules: Rules<E>) returns (data: Bytes, o: Outcome)
    requires Sound(rules) && left > 0 && want > 0
    modifies r
    ensures |data| <= want && |data| <= left
    ensures o == More ==> data != [] && |r.rest| < |old(r.rest)|
    ensures o == More ==> Stream(rules, old(r.rest), left) == Deliver(data, Stream(rules, r.rest, left - |data|))
    ensures o != More ==> Stream(rules, old(r.rest), left) == Streamed(data, EndFor(rules, o), [])
  {
    ghost var rest := r.rest;
    var end;
    data, end := r.Read(if left < want then left else want);
    assert rest[..|data|] == data && rest[|data|..] == r.rest;
    if end.Some? {
      return data, Cut;
    }
    if |data| < left {
      Split(rules, rest, left, |data|);
      return data, More;
    }
    assert |rest| >= left + 2 ==> r.rest[0..2] == rest[left..left + 2] && r.rest[2..] == rest[left + 2..];
    var ok := ReadCrLf(r);
    return data, if ok then More else NoLineEnd;
  }
}
