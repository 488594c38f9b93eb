/**
 Words of eight bytes handled at once: little-endian loads, the zero-byte test and the
 lanes it reports. Bytes are bit-vectors here so that words of them are too.
 */
module Swar {
  type Byte = bv8

  const COLON: Byte := 0x3A
  const LF: Byte := 0x0A

  const LSB: bv64 := 0x0101_0101_0101_0101
  const MSB: bv64 := 0x8080_8080_8080_8080

  function Word(b0: Byte, b1: Byte, b2: Byte, b3: Byte, b4: Byte, b5: Byte, b6: Byte, b7: Byte): bv64 {
    (b0 as bv64) | ((b1 as bv64) << 8) | ((b2 as bv64) << 16) | ((b3 as bv64) << 24)
    | ((b4 as bv64) << 32) | ((b5 as bv64) << 40) | ((b6 as bv64) << 48) | ((b7 as bv64) << 56)
  }

  /** binary.LittleEndian.Uint64. */
  function Load64(s: seq<Byte>, i: nat): bv64
    requires i + 8 <= |s|
  {
    Word(s[i], s[i + 1], s[i + 2], s[i + 3], s[i + 4], s[i + 5], s[i + 6], s[i + 7])
  }

  function HasZeroByte(v: bv64): bv64 {
    (v - LSB) & !v & MSB
  }

  function HasByte(v: bv64, b: Byte): bv64 {
    HasZeroByte(v ^ ((b as bv64) * LSB))
  }

  /** Only the top bits of bytes are set, and `lanes` says which. */
  predicate Shows(m: bv64, lanes: seq<bool>) {
    && |lanes| == 8
    && m & MSB == m
    && lanes[0] == (m & 0x80 != 0)
    && lanes[1] == (m & 0x8000 != 0)
    && lanes[2] == (m & 0x80_0000 != 0)
    && lanes[3] == (m & 0x8000_0000 != 0)
    && lanes[4] == (m & 0x80_0000_0000 != 0)
    && lanes[5] == (m & 0x8000_0000_0000 != 0)
    && lanes[6] == (m & 0x80_0000_0000_0000 != 0)
    && lanes[7] == (m & 0x8000_0000_0000_0000 != 0)
  }

  /** The lanes of a word. */
  function Lanes(m: bv64): seq<bool> {
    [m & 0x80 != 0, m & 0x8000 != 0, m & 0x80_0000 != 0, m & 0x8000_0000 != 0,
     m & 0x80_0000_0000 != 0, m & 0x8000_0000_0000 != 0, m & 0x80_0000_0000_0000 != 0, m & 0x8000_0000_0000_0000 != 0]
  }

  // ---- The zero-byte test ----

  /** The delimiters a header line can be cut at. */
  predicate IsDelimiter(b: Byte) {
    b == COLON || b == LF
  }

  function DelimiterMask(v: bv64): bv64 {
    HasByte(v, COLON) | HasByte(v, LF)
  }

  /** Which bytes of the word at `i` are delimiters. */
  function Delimiters(s: seq<Byte>, i: nat): seq<bool>
    requires i + 8 <= |s|
  {
    seq(8, k requires 0 <= k < 8 => IsDelimiter(s[i + k]))
  }

  predicate Covers(m: bv64, d: seq<bool>) {
    && |d| == 8
    && (d[0] ==> m & 0x80 != 0)
    && (d[1] ==> m & 0x8000 != 0)
    && (d[2] ==> m & 0x80_0000 != 0)
    && (d[3] ==> m & 0x8000_0000 != 0)
    && (d[4] ==> m & 0x80_0000_0000 != 0)
    && (d[5] ==> m & 0x8000_0000_0000 != 0)
    && (d[6] ==> m & 0x80_0000_0000_0000 != 0)
    && (d[7] ==> m & 0x8000_0000_0000_0000 != 0)
  }

  /** The test misses nothing: a delimiter's lane is set, whatever borrow reaches it. */
  lemma WordCovers(b0: Byte, b1: Byte, b2: Byte, b3: Byte, b4: Byte, b5: Byte, b6: Byte, b7: Byte, v: bv64)
    requires v == Word(b0, b1, b2, b3, b4, b5, b6, b7)
    ensures IsDelimiter(b0) ==> DelimiterMask(v) & 0x80 != 0
    ensures IsDelimiter(b1) ==> DelimiterMask(v) & 0x8000 != 0
    ensures IsDelimiter(b2) ==> DelimiterMask(v) & 0x80_0000 != 0
    ensures IsDelimiter(b3) ==> DelimiterMask(v) & 0x8000_0000 != 0
    ensures IsDelimiter(b4) ==> DelimiterMask(v) & 0x80_0000_0000 != 0
    ensures IsDelimiter(b5) ==> DelimiterMask(v) & 0x8000_0000_0000 != 0
    ensures IsDelimiter(b6) ==> DelimiterMask(v) & 0x80_0000_0000_0000 != 0
    ensures IsDelimiter(b7) ==> DelimiterMask(v) & 0x8000_0000_0000_0000 != 0
  {
  }

  lemma MaskCovers(s: seq<Byte>, i: nat)
    requires i + 8 <= |s|
    ensures Covers(DelimiterMask(Load64(s, i)), Delimiters(s, i))
  {
    WordCovers(s[i], s[i + 1], s[i + 2], s[i + 3], s[i + 4], s[i + 5], s[i + 6], s[i + 7], Load64(s, i));
  }

  lemma MaskShape(v: bv64)
    ensures DelimiterMask(v) & MSB == DelimiterMask(v)
  {
  }

  lemma LanesShow(m: bv64)
    requires m & MSB == m
    ensures Shows(m, Lanes(m))
  {
  }

  lemma BitsToLanes(d: seq<bool>, m: bv64)
    requires Covers(m, d)
    ensures forall k | 0 <= k < 8 :: d[k] ==> Lanes(m)[k]
  {
  }

  /** The mask of a word: only lane bits are set, and the lane of every delimiter is. */
  method LoadMask(s: seq<Byte>, i: nat) returns (m: bv64)
    requires i + 8 <= |s|
    ensures m & MSB == m && Covers(m, Delimiters(s, i))
  {
    var v := Load64(s, i);
    m := DelimiterMask(v);
    MaskShape(v);
    MaskCovers(s, i);
  }

  /** Loads a word and finds its delimiters: every one has its lane in the mask. */
  method ScanWord(s: seq<Byte>, i: nat) returns (m: bv64, ghost lanes: seq<bool>)
    requires i + 8 <= |s|
    ensures Shows(m, lanes)
    ensures forall k | 0 <= k < 8 :: IsDelimiter(s[i + k]) ==> lanes[k]
  {
    m := LoadMask(s, i);
    ghost var d := Delimiters(s, i);
    lanes := Lanes(m);
    LanesShow(m);
    BitsToLanes(d, m);
    assert forall k | 0 <= k < 8 :: d[k] == IsDelimiter(s[i + k]);
  }

  /**
   The converse fails: after a true match a byte that differs from it in the lowest bit only
   is reported as well, as ';' after ':' is.
   */
  lemma FalseLane()
    ensures exists s: seq<Byte> :: |s| == 8 && Lanes(DelimiterMask(Load64(s, 0)))[1] && !IsDelimiter(s[1])
  {
    var s: seq<Byte> := [0x3A, 0x3B, 0, 0, 0, 0, 0, 0];
    assert Load64(s, 0) == 0x3B3A;
    assert HasByte(0x3B3A, COLON) & 0x8000 != 0;
    assert Lanes(DelimiterMask(Load64(s, 0)))[1];
  }

  // ---- Walking the lanes ----

  /** bits.TrailingZeros64. */
  function TrailingZeros64(m: bv64): (t: nat)
    ensures t <= 64
  {
    if m == 0 then 64 else
    var m5 := if m & 0xFFFF_FFFF == 0 then m >> 32 else m;
    var m4 := if m5 & 0xFFFF == 0 then m5 >> 16 else m5;
    var m3 := if m4 & 0xFF == 0 then m4 >> 8 else m4;
    var m2 := if m3 & 0xF == 0 then m3 >> 4 else m3;
    var m1 := if m2 & 0x3 == 0 then m2 >> 2 else m2;
    (if m & 0xFFFF_FFFF == 0 then 32 else 0) + (if m5 & 0xFFFF == 0 then 16 else 0)
    + (if m4 & 0xFF == 0 then 8 else 0) + (if m3 & 0xF == 0 then 4 else 0)
    + (if m2 & 0x3 == 0 then 2 else 0) + (if m1 & 0x1 == 0 then 1 else 0)
  }

  /** The lowest set bit of a mask is the top bit of the first set lane. */
  lemma FirstLane(m: bv64, lanes: seq<bool>)
    requires Shows(m, lanes) && m != 0
    ensures TrailingZeros64(m) % 8 == 7 && TrailingZeros64(m) < 64
    ensures lanes[TrailingZeros64(m) / 8]
    ensures forall k | 0 <= k < TrailingZeros64(m) / 8 :: !lanes[k]
  {
  }

  lemma NoLanes(m: bv64, lanes: seq<bool>)
    requires Shows(m, lanes)
    ensures m == 0 <==> forall k | 0 <= k < 8 :: !lanes[k]
  {
    assert m != 0 ==> lanes[0] || lanes[1] || lanes[2] || lanes[3] || lanes[4] || lanes[5] || lanes[6] || lanes[7];
  }

  /** `uint64(0xFF) << tz`, for the shift counts a mask can give. */
  function ClearMask(tz: nat): bv64
    requires tz % 8 == 7 && tz < 64
  {
    match tz / 8
    case 0 => 0xFF << 7
    case 1 => 0xFF << 15
    case 2 => 0xFF << 23
    case 3 => 0xFF << 31
    case 4 => 0xFF << 39
    case 5 => 0xFF << 47
    case 6 => 0xFF << 55
    case _ => 0xFF << 63
  }

  /** On a mask, the eight bits from a lane's top bit upwards contain that lane and no other. */
  lemma ClearedBits(m: bv64)
    requires m & MSB == m
    ensures m & !(0xFF << 7) == m & !0x80
    ensures m & !(0xFF << 15) == m & !0x8000
    ensures m & !(0xFF << 23) == m & !0x80_0000
    ensures m & !(0xFF << 31) == m & !0x8000_0000
    ensures m & !(0xFF << 39) == m & !0x80_0000_0000
    ensures m & !(0xFF << 47) == m & !0x8000_0000_0000
    ensures m & !(0xFF << 55) == m & !0x80_0000_0000_0000
    ensures m & !(0xFF << 63) == m & !0x8000_0000_0000_0000
  {
  }

  lemma ClearLane(m: bv64, lanes: seq<bool>, tz: nat)
    requires Shows(m, lanes) && tz % 8 == 7 && tz < 64
    ensures Shows(m & !ClearMask(tz), lanes[tz / 8 := false])
  {
    ClearedBits(m);
  }

  /** Takes the first lane off the mask. */
  method TakeLane(m: bv64, ghost lanes: seq<bool>) returns (k: nat, rest: bv64)
    requires Shows(m, lanes) && m != 0
    ensures k < 8 && lanes[k] && (forall j | 0 <= j < k :: !lanes[j])
    ensures Shows(rest, lanes[k := false])
  {
    FirstLane(m, lanes);
    var tz := TrailingZeros64(m);
    k := tz / 8;
    ClearLane(m, lanes, tz);
    rest := m & !ClearMask(tz);
  }
}

