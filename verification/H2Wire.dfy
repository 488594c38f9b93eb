/** Numbers on the HTTP/2 wire, and the nine bytes in front of every frame (section 4.1 of RFC 9113). */
module H2Wire {
  import opened Octets

  const U16 := 0x1_0000
  const U24 := 0x100_0000
  const U31 := 0x8000_0000
  const U32 := 0x1_0000_0000

  type Uint32 = n: int | 0 <= n < U32

  /** byte(n). */
  function Low(n: nat): Octet {
    n % 256
  }

  /** The low 16, 24 and 32 bits of a number, most significant byte first. */
  function Bytes16(n: nat): (b: Bytes)
    ensures |b| == 2
  {
    [Low(n / 256), Low(n)]
  }

  function Bytes24(n: nat): (b: Bytes)
    ensures |b| == 3
  {
    [Low(n / 256 / 256), Low(n / 256), Low(n)]
  }

  function Bytes32(n: nat): (b: Bytes)
    ensures |b| == 4
  {
    [Low(n / 256 / 256 / 256), Low(n / 256 / 256), Low(n / 256), Low(n)]
  }

  /** hi<<8 | lo. */
  function Shift(hi: nat, lo: nat): nat {
    hi * 256 + lo
  }

  function Num16(b: Bytes): nat
    requires |b| >= 2
  {
    Shift(b[0], b[1])
  }

  function Num24(b: Bytes): nat
    requires |b| >= 3
  {
    Shift(Shift(b[0], b[1]), b[2])
  }

  function Num32(b: Bytes): (n: Uint32)
    requires |b| >= 4
  {
    Shift(Shift(Shift(b[0], b[1]), b[2]), b[3])
  }

  lemma Digits(n: nat)
    ensures n == n / 256 * 256 + n % 256
    ensures n < U16 ==> n / 256 < 256
    ensures n < U24 ==> n / 256 < U16
    ensures n < U32 ==> n / 256 < U24
  {
  }

  lemma RoundTrip16(n: nat)
    requires n < U16
    ensures Num16(Bytes16(n)) == n
  {
    Digits(n);
  }

  lemma RoundTrip24(n: nat)
    requires n < U24
    ensures Num24(Bytes24(n)) == n
  {
    Digits(n);
    RoundTrip16(n / 256);
  }

  lemma RoundTrip32(n: nat)
    requires n < U32
    ensures Num32(Bytes32(n)) == n
  {
    Digits(n);
    RoundTrip24(n / 256);
  }

  // ---- Frame headers ----

  type Flags = bv8

  datatype Head = Head(length: nat, kind: Octet, flags: Flags, stream: Uint32)

  /** PackFrameHeader. */
  function HeadBytes(h: Head): (b: Bytes)
    ensures |b| == 9
  {
    Bytes24(h.length) + [h.kind, h.flags as int] + Bytes32(h.stream)
  }

  /** UnpackFrameHeader: the reserved bit of the stream is ignored. */
  function ParseHead(b: Bytes): (h: Head)
    requires |b| >= 9
  {
    Head(Num24(b), b[3], b[4] as bv8, Num32(b[5..]) % U31)
  }

  lemma HeadFields(h: Head, rest: Bytes)
    ensures var b := HeadBytes(h) + rest;
            && b[..3] == Bytes24(h.length) && b[3] == h.kind && b[4] == h.flags as int && b[5..9] == Bytes32(h.stream)
  {
  }

  lemma NumPrefix(a: Bytes, b: Bytes)
    ensures |a| >= 2 ==> Num16(a + b) == Num16(a)
    ensures |a| >= 3 ==> Num24(a + b) == Num24(a)
    ensures |a| >= 4 ==> Num32(a + b) == Num32(a)
  {
  }

  lemma HeadPrefix(b: Bytes)
    requires |b| >= 9
    ensures ParseHead(b[..9]) == ParseHead(b)
  {
    assert b[..9][5..] == b[5..9];
    assert b[5..] == b[5..9] + b[9..];
    NumPrefix(b[5..9], b[9..]);
  }

  /** Header fields survive exactly when the length has 24 bits and the stream 31. */
  lemma HeadRoundTrip(h: Head)
    ensures ParseHead(HeadBytes(h)) == h <==> h.length < U24 && h.stream < U31
  {
    var b := HeadBytes(h);
    HeadFields(h, []);
    assert b + [] == b;
    NumPrefix(b[..3], b[3..]);
    assert b[..3] + b[3..] == b;
    NumPrefix(b[5..9], []);
    assert b[5..9] + [] == b[5..];
    RoundTrip32(h.stream);
    if h.length < U24 {
      RoundTrip24(h.length);
    }
  }
}
