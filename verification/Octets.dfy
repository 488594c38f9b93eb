/** Bytes as numbers, and the small helpers on byte strings that the HTTP/1 code takes from its libraries. */
module Octets {
  import opened Common

  type Octet = b: int | 0 <= b < 256
  type Bytes = seq<Octet>

  const TAB: Octet := 9
  const LF: Octet := 10
  const CR: Octet := 13
  const SP: Octet := 32
  const QUOTE: Octet := 34
  const COLON: Octet := 58
  const SEMICOLON: Octet := 59
  const EQUALS: Octet := 61
  const BACKSLASH: Octet := 92
  const CRLF: Bytes := [CR, LF]

  const MAX_INT := 0x7FFF_FFFF_FFFF_FFFF

  predicate IsBlank(b: Octet) {
    b == SP || b == TAB
  }

  /** Section 5.6.3 of RFC 9110: space and tab. */
  lemma BlankMeans(b: Octet)
    ensures IsBlank(b) <==> b == ' ' as int || b == '\t' as int
    ensures LF == '\n' as int && CR == '\r' as int && SEMICOLON == ';' as int && COLON == ':' as int
    ensures EQUALS == '=' as int && QUOTE == '"' as int && BACKSLASH == '\\' as int
  {
  }

  function TrimTrailing(s: Bytes): Bytes {
    if s != [] && IsBlank(s[|s| - 1]) then TrimTrailing(s[..|s| - 1]) else s
  }

  // ---- Hexadecimal sizes ----

  function HexVal(b: Octet): Option<nat> {
    if 48 <= b <= 57 then Some(b - 48)
    else if 97 <= b <= 102 then Some(b - 87)
    else if 65 <= b <= 70 then Some(b - 55)
    else None
  }

  function HexDigit(d: nat): (b: Octet)
    requires d < 16
    ensures HexVal(b) == Some(d)
  {
    if d < 10 then 48 + d else 87 + d
  }

  /** The number that a string of hexadecimal digits writes. */
  function HexValue(s: Bytes): Option<nat> {
    if s == [] then Some(0)
    else
      var hi := HexValue(s[..|s| - 1]);
      var lo := HexVal(s[|s| - 1]);
      if hi.Some? && lo.Some? then Some(16 * hi.value + lo.value) else None
  }

  /** A non-empty string of hexadecimal digits that fits an int. */
  function ParseSize(s: Bytes): Option<nat> {
    if s == [] || HexValue(s).None? || HexValue(s).value > MAX_INT then None else HexValue(s)
  }

  /** Lowercase digits without leading zeros. */
  function HexOf(n: nat): (s: Bytes)
    ensures s != []
  {
    if n < 16 then [HexDigit(n)] else HexOf(n / 16) + [HexDigit(n % 16)]
  }

  lemma {:induction false} HexRoundTrip(n: nat)
    ensures HexValue(HexOf(n)) == Some(n)
  {
    var s := HexOf(n);
    if n < 16 {
      assert s[..0] == [];
    } else {
      HexRoundTrip(n / 16);
      assert s[..|s| - 1] == HexOf(n / 16);
    }
  }

  /** `b` is the digit for `v`, in either case. */
  predicate IsHexDigit(b: Octet, v: nat) {
    || (v < 10 && b == '0' as int + v)
    || (10 <= v < 16 && (b == 'a' as int + (v - 10) || b == 'A' as int + (v - 10)))
  }

  function Pow16(k: nat): nat {
    if k == 0 then 1 else 16 * Pow16(k - 1)
  }

  /** Digits by their places, the first one counting most. */
  function Positional(vs: seq<nat>): nat {
    if vs == [] then 0 else vs[0] * Pow16(|vs| - 1) + Positional(vs[1..])
  }

  ghost predicate Digits(s: Bytes, vs: seq<nat>) {
    |vs| == |s| && forall i | 0 <= i < |s| :: IsHexDigit(s[i], vs[i])
  }

  /** `s` writes the number `n` in hexadecimal, and `n` is an int. */
  ghost predicate WritesSize(s: Bytes, n: nat) {
    s != [] && n <= MAX_INT && exists vs: seq<nat> :: Digits(s, vs) && Positional(vs) == n
  }

  lemma {:induction false} PositionalSnoc(vs: seq<nat>, v: nat)
    ensures Positional(vs + [v]) == 16 * Positional(vs) + v
  {
    if vs == [] {
      assert vs + [v] == [v] && [v][1..] == [];
      assert Pow16(0) == 1;
    } else {
      assert (vs + [v])[1..] == vs[1..] + [v];
      PositionalSnoc(vs[1..], v);
    }
  }

  lemma {:induction false} ValueMeans(s: Bytes, vs: seq<nat>)
    requires Digits(s, vs)
    ensures HexValue(s) == Some(Positional(vs))
  {
    if s != [] {
      var n := |s| - 1;
      ValueMeans(s[..n], vs[..n]);
      assert IsHexDigit(s[n], vs[n]);
      PositionalSnoc(vs[..n], vs[n]);
      assert vs == vs[..n] + [vs[n]];
    }
  }

  lemma {:induction false} DigitsOf(s: Bytes) returns (vs: seq<nat>)
    requires HexValue(s).Some?
    ensures Digits(s, vs)
  {
    if s == [] {
      vs := [];
    } else {
      var n := |s| - 1;
      var more := DigitsOf(s[..n]);
      vs := more + [HexVal(s[n]).value];
      assert forall i | 0 <= i < n :: IsHexDigit(s[..n][i], more[i]);
    }
  }

  /** ParseSize accepts exactly the hexadecimal numbers that are ints, and returns the number. */
  lemma ParseSizeMeans(s: Bytes, n: nat)
    ensures ParseSize(s) == Some(n) <==> WritesSize(s, n)
  {
    if ParseSize(s) == Some(n) {
      var vs := DigitsOf(s);
      ValueMeans(s, vs);
    }
    if WritesSize(s, n) {
      var vs: seq<nat> :| Digits(s, vs) && Positional(vs) == n;
      ValueMeans(s, vs);
    }
  }

  /** What is trimmed is blank, and what is left does not end in a blank. */
  lemma {:induction false} TrimMeans(s: Bytes)
    ensures var t := TrimTrailing(s);
            && t <= s && (forall i | |t| <= i < |s| :: IsBlank(s[i]))
            && (t == [] || !IsBlank(t[|t| - 1]))
  {
    if s != [] && IsBlank(s[|s| - 1]) {
      TrimMeans(s[..|s| - 1]);
    }
  }

  lemma {:induction false} TrimExact(t: Bytes, blanks: Bytes)
    requires (t == [] || !IsBlank(t[|t| - 1])) && forall i | 0 <= i < |blanks| :: IsBlank(blanks[i])
    ensures TrimTrailing(t + blanks) == t
    decreases |blanks|
  {
    if blanks == [] {
      assert t + blanks == t;
    } else {
      assert (t + blanks)[..|t + blanks| - 1] == t + blanks[..|blanks| - 1];
      TrimExact(t, blanks[..|blanks| - 1]);
    }
  }

  /** No digit of a written size ends a line, starts an extension or is trimmed. */
  lemma {:induction false} HexOnly(n: nat)
    ensures forall b | b in HexOf(n) :: HexVal(b).Some?
  {
    if n >= 16 {
      HexOnly(n / 16);
    }
  }
}
