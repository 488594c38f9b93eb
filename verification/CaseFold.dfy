/**
 Case-insensitive comparison of names, eight and four bytes at a time. In the words every
 byte from 'A' up to DEL gets bit 0x20, so the comparison is exact only for targets
 without the bytes in which this differs from lowercasing.
 */
module CaseFold {
  import opened Swar
  import opened HeaderStore

  function ToLower64(v: bv64): bv64 {
    var mask1 := ((v + 0x7F7F_7F7F_7F7F_7F7F) ^ v) & MSB;
    var mask2 := ((v + 0x3F3F_3F3F_3F3F_3F3F) ^ v) & mask1;
    v | ((mask2 >> 2) & 0x2020_2020_2020_2020)
  }

  function ToLower32(v: bv32): bv32 {
    var mask1 := ((v + 0x7F7F_7F7F) ^ v) & 0x8080_8080;
    var mask2 := ((v + 0x3F3F_3F3F) ^ v) & mask1;
    v | ((mask2 >> 2) & 0x2020_2020)
  }

  function Word32(b0: Byte, b1: Byte, b2: Byte, b3: Byte): bv32 {
    (b0 as bv32) | ((b1 as bv32) << 8) | ((b2 as bv32) << 16) | ((b3 as bv32) << 24)
  }

  /** binary.LittleEndian.Uint32. */
  function Load32(s: Str, i: nat): bv32
    requires i + 4 <= |s|
  {
    Word32(s[i], s[i + 1], s[i + 2], s[i + 3])
  }

  /** What the words do to an ASCII byte. */
  function FoldByte(x: Byte): Byte {
    if 0x41 <= x <= 0x7F then x | 0x20 else x
  }

  predicate WordFolds(x: Byte, y: Byte) {
    FoldByte(x) == y
  }

  predicate LowerIs(x: Byte, y: Byte) {
    Lower(x) == y
  }

  predicate IsAscii(b: Str) {
    forall i | 0 <= i < |b| :: b[i] < 0x80
  }

  /** Which bytes fold as the words fold them. */
  ghost function FoldFlags(a: Str, b: Str): seq<bool>
    requires |a| == |b|
  {
    seq(|a|, k requires 0 <= k < |a| => WordFolds(a[k], b[k]))
  }

  ghost predicate FoldsFrom(a: Str, b: Str, i: nat, j: nat)
    requires i <= j <= |a| == |b|
  {
    forall k | i <= k < j :: FoldFlags(a, b)[k]
  }

  // ---- One word ----

  /** Without high bits in its lower half a word folds half by half. */
  lemma Halves(lo: bv32, hi: bv32)
    requires lo & 0x8080_8080 == 0
    ensures ToLower64((lo as bv64) | ((hi as bv64) << 32)) == (ToLower32(lo) as bv64) | ((ToLower32(hi) as bv64) << 32)
  {
  }

  lemma WordHalves(b0: Byte, b1: Byte, b2: Byte, b3: Byte, b4: Byte, b5: Byte, b6: Byte, b7: Byte)
    ensures Word(b0, b1, b2, b3, b4, b5, b6, b7)
            == (Word32(b0, b1, b2, b3) as bv64) | ((Word32(b4, b5, b6, b7) as bv64) << 32)
  {
  }

  lemma Ascii64(a0: Byte, a1: Byte, a2: Byte, a3: Byte, a4: Byte, a5: Byte, a6: Byte, a7: Byte)
    requires a0 < 0x80 && a1 < 0x80 && a2 < 0x80 && a3 < 0x80 && a4 < 0x80 && a5 < 0x80 && a6 < 0x80 && a7 < 0x80
    ensures ToLower64(Word(a0, a1, a2, a3, a4, a5, a6, a7))
            == Word(FoldByte(a0), FoldByte(a1), FoldByte(a2), FoldByte(a3),
                    FoldByte(a4), FoldByte(a5), FoldByte(a6), FoldByte(a7))
  {
    WordHalves(a0, a1, a2, a3, a4, a5, a6, a7);
    WordHalves(FoldByte(a0), FoldByte(a1), FoldByte(a2), FoldByte(a3),
               FoldByte(a4), FoldByte(a5), FoldByte(a6), FoldByte(a7));
    High32(a0, a1, a2, a3);
    Halves(Word32(a0, a1, a2, a3), Word32(a4, a5, a6, a7));
    Ascii32(a0, a1, a2, a3);
    Ascii32(a4, a5, a6, a7);
  }

  /** With or without carries the high bits are kept. */
  lemma High64(a0: Byte, a1: Byte, a2: Byte, a3: Byte, a4: Byte, a5: Byte, a6: Byte, a7: Byte)
    ensures ToLower64(Word(a0, a1, a2, a3, a4, a5, a6, a7)) & MSB == 0
            <==> a0 < 0x80 && a1 < 0x80 && a2 < 0x80 && a3 < 0x80 &&
                 a4 < 0x80 && a5 < 0x80 && a6 < 0x80 && a7 < 0x80
    ensures Word(a0, a1, a2, a3, a4, a5, a6, a7) & MSB == 0
            <==> a0 < 0x80 && a1 < 0x80 && a2 < 0x80 && a3 < 0x80 &&
                 a4 < 0x80 && a5 < 0x80 && a6 < 0x80 && a7 < 0x80
  {
  }

  lemma SameBytes64(a0: Byte, a1: Byte, a2: Byte, a3: Byte, a4: Byte, a5: Byte, a6: Byte, a7: Byte,
                    b0: Byte, b1: Byte, b2: Byte, b3: Byte, b4: Byte, b5: Byte, b6: Byte, b7: Byte)
    ensures Word(a0, a1, a2, a3, a4, a5, a6, a7) == Word(b0, b1, b2, b3, b4, b5, b6, b7)
            <==> a0 == b0 && a1 == b1 && a2 == b2 && a3 == b3 &&
                 a4 == b4 && a5 == b5 && a6 == b6 && a7 == b7
  {
  }

  /**
   A folded word equals an ASCII word exactly when byte folds to byte: carries start only at bytes that
   cannot match.
   */
  lemma Compare64(a0: Byte, a1: Byte, a2: Byte, a3: Byte, a4: Byte, a5: Byte, a6: Byte, a7: Byte,
                  b0: Byte, b1: Byte, b2: Byte, b3: Byte, b4: Byte, b5: Byte, b6: Byte, b7: Byte)
    requires b0 < 0x80 && b1 < 0x80 && b2 < 0x80 && b3 < 0x80 && b4 < 0x80 && b5 < 0x80 && b6 < 0x80 && b7 < 0x80
    ensures ToLower64(Word(a0, a1, a2, a3, a4, a5, a6, a7)) == Word(b0, b1, b2, b3, b4, b5, b6, b7)
            <==> WordFolds(a0, b0) && WordFolds(a1, b1) && WordFolds(a2, b2) && WordFolds(a3, b3) &&
                 WordFolds(a4, b4) && WordFolds(a5, b5) && WordFolds(a6, b6) && WordFolds(a7, b7)
  {
    High64(a0, a1, a2, a3, a4, a5, a6, a7);
    High64(b0, b1, b2, b3, b4, b5, b6, b7);
    if a0 < 0x80 && a1 < 0x80 && a2 < 0x80 && a3 < 0x80 && a4 < 0x80 && a5 < 0x80 && a6 < 0x80 && a7 < 0x80 {
      Ascii64(a0, a1, a2, a3, a4, a5, a6, a7);
      SameBytes64(FoldByte(a0), FoldByte(a1), FoldByte(a2), FoldByte(a3),
                  FoldByte(a4), FoldByte(a5), FoldByte(a6), FoldByte(a7),
                  b0, b1, b2, b3, b4, b5, b6, b7);
    }
  }

  lemma All8(f: seq<bool>, i: nat)
    requires i + 8 <= |f|
    ensures f[i] && f[i + 1] && f[i + 2] && f[i + 3] && f[i + 4] && f[i + 5] && f[i + 6] && f[i + 7]
            <==> forall k | i <= k < i + 8 :: f[k]
  {
  }

  method SameWord64(a: Str, b: Str, i: nat) returns (same: bool)
    requires i + 8 <= |a| == |b| && IsAscii(b)
    ensures same <==> FoldsFrom(a, b, i, i + 8)
  {
    same := ToLower64(Load64(a, i)) == Load64(b, i);
    Compare64(a[i], a[i + 1], a[i + 2], a[i + 3], a[i + 4], a[i + 5], a[i + 6], a[i + 7],
              b[i], b[i + 1], b[i + 2], b[i + 3], b[i + 4], b[i + 5], b[i + 6], b[i + 7]);
    All8(FoldFlags(a, b), i);
  }

  /** Without high bits there are no carries, and every byte folds on its own. */
  lemma Ascii32(a0: Byte, a1: Byte, a2: Byte, a3: Byte)
    requires a0 < 0x80 && a1 < 0x80 && a2 < 0x80 && a3 < 0x80
    ensures ToLower32(Word32(a0, a1, a2, a3)) == Word32(FoldByte(a0), FoldByte(a1), FoldByte(a2), FoldByte(a3))
  {
  }

  /** With or without carries the high bits are kept. */
  lemma High32(a0: Byte, a1: Byte, a2: Byte, a3: Byte)
    ensures ToLower32(Word32(a0, a1, a2, a3)) & 0x8080_8080 == 0 <==> a0 < 0x80 && a1 < 0x80 && a2 < 0x80 && a3 < 0x80
    ensures Word32(a0, a1, a2, a3) & 0x8080_8080 == 0 <==> a0 < 0x80 && a1 < 0x80 && a2 < 0x80 && a3 < 0x80
  {
  }

  lemma SameBytes32(a0: Byte, a1: Byte, a2: Byte, a3: Byte, b0: Byte, b1: Byte, b2: Byte, b3: Byte)
    ensures Word32(a0, a1, a2, a3) == Word32(b0, b1, b2, b3) <==> a0 == b0 && a1 == b1 && a2 == b2 && a3 == b3
  {
  }

  /**
   A folded word equals an ASCII word exactly when byte folds to byte: carries start only at bytes that
   cannot match.
   */
  lemma Compare32(a0: Byte, a1: Byte, a2: Byte, a3: Byte, b0: Byte, b1: Byte, b2: Byte, b3: Byte)
    requires b0 < 0x80 && b1 < 0x80 && b2 < 0x80 && b3 < 0x80
    ensures ToLower32(Word32(a0, a1, a2, a3)) == Word32(b0, b1, b2, b3)
            <==> WordFolds(a0, b0) && WordFolds(a1, b1) &&
                 WordFolds(a2, b2) && WordFolds(a3, b3)
  {
    High32(a0, a1, a2, a3);
    High32(b0, b1, b2, b3);
    if a0 < 0x80 && a1 < 0x80 && a2 < 0x80 && a3 < 0x80 {
      Ascii32(a0, a1, a2, a3);
      SameBytes32(FoldByte(a0), FoldByte(a1), FoldByte(a2), FoldByte(a3), b0, b1, b2, b3);
    }
  }

  lemma All4(f: seq<bool>, i: nat)
    requires i + 4 <= |f|
    ensures f[i] && f[i + 1] && f[i + 2] && f[i + 3] <==> forall k | i <= k < i + 4 :: f[k]
  {
  }

  method SameWord32(a: Str, b: Str, i: nat) returns (same: bool)
    requires i + 4 <= |a| == |b| && IsAscii(b)
    ensures same <==> FoldsFrom(a, b, i, i + 4)
  {
    same := ToLower32(Load32(a, i)) == Load32(b, i);
    Compare32(a[i], a[i + 1], a[i + 2], a[i + 3], b[i], b[i + 1], b[i + 2], b[i + 3]);
    All4(FoldFlags(a, b), i);
  }

  // ---- The comparison ----

  /** How much of a name of length `n` is compared in words. */
  function Covered(n: nat): (c: nat)
    ensures c <= n
  {
    var whole := n / 8 * 8;
    if whole + 4 <= n then whole + 4 else whole
  }

  /** What equalFoldSWAR decides: words up to Covered, single bytes after it. */
  ghost predicate SwarEqual(a: Str, b: Str) {
    && |a| == |b|
    && FoldsFrom(a, b, 0, Covered(|b|))
    && (forall k | Covered(|b|) <= k < |b| :: LowerIs(a[k], b[k]))
  }

  method EqualFoldSWAR(a: Str, b: Str) returns (equal: bool)
    requires IsAscii(b)
    ensures equal <==> SwarEqual(a, b)
  {
    if |a| != |b| {
      return false;
    }
    var n, i := |a|, 0;
    while i + 8 <= n
      invariant i <= n && i % 8 == 0 && FoldsFrom(a, b, 0, i)
    {
      var same := SameWord64(a, b, i);
      if !same {
        return false;
      }
      i := i + 8;
    }
    if i + 4 <= n {
      var same := SameWord32(a, b, i);
      if !same {
        return false;
      }
      i := i + 4;
    }
    while i < n
      invariant Covered(n) <= i <= n
      invariant FoldsFrom(a, b, 0, Covered(n))
      invariant forall k | Covered(n) <= k < i :: LowerIs(a[k], b[k])
    {
      var ca := if 0x41 <= a[i] <= 0x5A then a[i] + 0x20 else a[i];
      if ca != b[i] {
        return false;
      }
      i := i + 1;
    }
    return true;
  }

  // ---- When the comparison is exact ----

  /** Case-insensitive equality with a lowercase target. */
  ghost predicate LowerEqual(a: Str, b: Str) {
    |a| == |b| && forall k | 0 <= k < |b| :: LowerIs(a[k], b[k])
  }

  /** ASCII without capitals, as the code assumes of its targets. */
  predicate IsLowerByte(y: Byte) {
    y < 0x80 && !(0x41 <= y <= 0x5A)
  }

  ghost predicate IsLower(b: Str) {
    forall k | 0 <= k < |b| :: IsLowerByte(b[k])
  }

  /** The bytes next to the letters, on which bit 0x20 does not mean case. */
  predicate NextToLetters(y: Byte) {
    0x5B <= y <= 0x5F || 0x7B <= y <= 0x7F
  }

  predicate IsNameByte(y: Byte) {
    0x61 <= y <= 0x7A || y == 0x2D
  }

  lemma SafeByte(x: Byte, y: Byte)
    requires IsLowerByte(y) && !NextToLetters(y)
    ensures WordFolds(x, y) <==> LowerIs(x, y)
  {
  }

  lemma OwnByte(y: Byte)
    requires IsLowerByte(y)
    ensures LowerIs(y, y)
    ensures WordFolds(y, y) <==> !(0x5B <= y <= 0x5F)
  {
  }

  lemma BraceByte(y: Byte)
    requires 0x7B <= y <= 0x7F
    ensures WordFolds(y - 0x20, y) && !LowerIs(y - 0x20, y)
  {
  }

  lemma FlagsAre(a: Str, b: Str, k: nat)
    requires k < |a| == |b|
    ensures FoldFlags(a, b)[k] == WordFolds(a[k], b[k])
  {
  }

  lemma ExactWhenSafe(a: Str, b: Str)
    requires IsLower(b) && forall k | 0 <= k < Covered(|b|) :: !NextToLetters(b[k])
    ensures SwarEqual(a, b) <==> LowerEqual(a, b)
  {
    if |a| == |b| {
      forall k | 0 <= k < Covered(|b|)
        ensures FoldFlags(a, b)[k] <==> LowerIs(a[k], b[k])
      {
        SafeByte(a[k], b[k]);
        FlagsAre(a, b, k);
      }
    }
  }

  lemma InexactAt(b: Str, k: nat) returns (a: Str)
    requires IsLower(b) && k < Covered(|b|) && NextToLetters(b[k])
    ensures SwarEqual(a, b) != LowerEqual(a, b)
  {
    if j: nat :| j < Covered(|b|) && 0x5B <= b[j] <= 0x5F {
      a := b;
      OwnByte(b[j]);
      FlagsAre(a, b, j);
      forall i | 0 <= i < |b|
        ensures LowerIs(a[i], b[i])
      {
        OwnByte(b[i]);
      }
    } else {
      a := b[k := b[k] - 0x20];
      BraceByte(b[k]);
      assert !LowerIs(a[k], b[k]);
      forall i | 0 <= i < |b|
        ensures i < Covered(|b|) ==> FoldFlags(a, b)[i]
        ensures i >= Covered(|b|) ==> LowerIs(a[i], b[i])
      {
        FlagsAre(a, b, i);
        OwnByte(b[i]);
      }
    }
  }

  /**
   For a lowercase target the comparison is case-insensitive equality for every name exactly when no byte
   compared in a word is one of the ten next to the letters.
   */
  lemma ExactIff(b: Str)
    requires IsLower(b)
    ensures (forall a: Str :: SwarEqual(a, b) <==> LowerEqual(a, b))
            <==> (forall k | 0 <= k < Covered(|b|) :: !NextToLetters(b[k]))
  {
    if forall k | 0 <= k < Covered(|b|) :: !NextToLetters(b[k]) {
      forall a: Str
        ensures SwarEqual(a, b) <==> LowerEqual(a, b)
      {
        ExactWhenSafe(a, b);
      }
    } else {
      var k: nat :| k < Covered(|b|) && NextToLetters(b[k]);
      var a := InexactAt(b, k);
    }
  }

  /** Header names are lowercase letters and '-': for them the comparison is exact, also on bytes above ASCII. */
  lemma ExactForNames(a: Str, b: Str)
    requires forall k | 0 <= k < |b| :: IsNameByte(b[k])
    ensures SwarEqual(a, b) <==> LowerEqual(a, b)
  {
    forall k | 0 <= k < |b|
      ensures IsLowerByte(b[k]) && !NextToLetters(b[k])
    {
      assert IsNameByte(b[k]);
    }
    ExactWhenSafe(a, b);
  }
}
