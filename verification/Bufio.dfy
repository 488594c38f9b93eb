/**
 The buffered reader that the HTTP/1 decoders consume: what is still to come, a buffer of a fixed
 size, and a source that may deliver it in pieces of any size.
 */
module Bufio {
  import opened Common
  import opened Octets

  datatype ReadError = Eof | BufferFull

  /** A line with its delimiter, or why there is none, and what is left to read. */
  datatype Slice = Slice(line: Bytes, err: Option<ReadError>, rest: Bytes)

  /** ReadSlice('\n') with a buffer of `size` bytes. */
  function ReadSliceOf(rest: Bytes, size: nat): (r: Slice)
    ensures r.line + r.rest == rest
    ensures r.err.None? ==> r.line != []
  {
    var j := IndexOf(rest, LF);
    if j < |rest| && j < size then Slice(rest[..j + 1], None, rest[j + 1..])
    else if |rest| >= size then Slice(rest[..size], Some(BufferFull), rest[size..])
    else Slice(rest, Some(Eof), [])
  }

  /** ReadBytes('\n'): lines of any length. */
  function ReadBytesOf(rest: Bytes): (r: Slice)
    ensures r.line + r.rest == rest
    ensures r.err.None? ==> r.line != []
  {
    var j := IndexOf(rest, LF);
    if j < |rest| then Slice(rest[..j + 1], None, rest[j + 1..]) else Slice(rest, Some(Eof), [])
  }

  class Reader {
    var rest: Bytes
    const size: nat

    constructor (data: Bytes, n: nat)
      ensures rest == data && size == n
    {
      rest, size := data, n;
    }

    method ReadSlice() returns (line: Bytes, err: Option<ReadError>)
      modifies this
      ensures Slice(line, err, rest) == ReadSliceOf(old(rest), size)
    {
      var s := ReadSliceOf(rest, size);
      line, err, rest := s.line, s.err, s.rest;
    }

    method ReadBytes() returns (line: Bytes, err: Option<ReadError>)
      modifies this
      ensures Slice(line, err, rest) == ReadBytesOf(old(rest))
    {
      var s := ReadBytesOf(rest);
      line, err, rest := s.line, s.err, s.rest;
    }

    /** Read into a buffer of `want` bytes: any number of the next bytes, at least one, or the end. */
    method Read(want: nat) returns (data: Bytes, err: Option<ReadError>)
      requires want > 0
      modifies this
      ensures data + rest == old(rest) && |data| <= want
      ensures err.Some? <==> old(rest) == []
      ensures err.Some? ==> err.value == Eof
      ensures err.None? ==> data != []
    {
      if rest == [] {
        return [], Some(Eof);
      }
      assert 1 <= want && 1 <= |rest|;
      var n: nat :| 1 <= n <= want && n <= |rest|;
      data, err, rest := rest[..n], None, rest[n..];
    }

    /** Peek: the next bytes without taking them. */
    method Peek(n: nat) returns (b: Option<Bytes>)
      requires n <= size
      ensures b == if n <= |rest| then Some(rest[..n]) else None
    {
      b := if n <= |rest| then Some(rest[..n]) else None;
    }

    /** Discard, and io.CopyN to nowhere: all `n` bytes or as many as there are. */
    method Discard(n: nat) returns (ok: bool)
      modifies this
      ensures ok <==> n <= |old(rest)|
      ensures rest == if ok then old(rest)[n..] else []
    {
      ok := n <= |rest|;
      rest := if ok then rest[n..] else [];
    }

    /** io.ReadFull. */
    method ReadFull(n: nat) returns (b: Option<Bytes>)
      modifies this
      ensures b == if n <= |old(rest)| then Some(old(rest)[..n]) else None
      ensures rest == if n <= |old(rest)| then old(rest)[n..] else []
    {
      if n <= |rest| {
        b, rest := Some(rest[..n]), rest[n..];
      } else {
        b, rest := None, [];
      }
    }

    method ReadByte() returns (b: Option<Octet>)
      modifies this
      ensures b == if old(rest) == [] then None else Some(old(rest)[0])
      ensures rest == if old(rest) == [] then [] else old(rest)[1..]
    {
      if rest == [] {
        return None;
      }
      b, rest := Some(rest[0]), rest[1..];
    }
  }
}
