/** Unsigned decimal numbers with 64-bit ints: parsing is exact at the edge of the range and inverts printing. */
module Decimal {
  import opened Common
  import opened Octets

  const MAX_INT_DIV_10 := MAX_INT / 10
  const MAX_SAFE_INT_DIGITS := 18

  datatype ParseError = EmptyInt | UnexpectedFirstChar | UnexpectedTrailingChar | TooLongInt

  predicate IsDigit(b: Octet) {
    48 <= b <= 57
  }

  /** How many digits a string starts with. */
  function Digits(s: Bytes): (n: nat)
    ensures n <= |s|
  {
    if s == [] || !IsDigit(s[0]) then 0 else 1 + Digits(s[1..])
  }

  predicate AllDigits(s: Bytes) {
    forall i | 0 <= i < |s| :: IsDigit(s[i])
  }

  /** The number that a string of digits writes. */
  function Value(s: Bytes): nat
    requires AllDigits(s)
  {
    if s == [] then 0 else 10 * Value(s[..|s| - 1]) + (s[|s| - 1] - 48)
  }

  function Pow10(n: nat): nat {
    if n == 0 then 1 else 10 * Pow10(n - 1)
  }

  lemma {:induction false} ValueBound(s: Bytes)
    requires AllDigits(s)
    ensures Value(s) < Pow10(|s|)
  {
    if s != [] {
      ValueBound(s[..|s| - 1]);
    }
  }

  lemma {:induction false} ValueGrows(s: Bytes, n: nat)
    requires AllDigits(s) && n <= |s|
    ensures Value(s[..n]) <= Value(s)
    decreases |s|
  {
    if n == |s| {
      assert s[..n] == s;
    } else {
      var t := s[..|s| - 1];
      ValueGrows(t, n);
      assert t[..n] == s[..n];
    }
  }

  lemma {:induction false} PowGrows(a: nat, b: nat)
    requires a <= b
    ensures Pow10(a) <= Pow10(b)
  {
    if a < b {
      PowGrows(a, b - 1);
    }
  }

  lemma SafeDigits(n: nat)
    requires n <= MAX_SAFE_INT_DIGITS
    ensures Pow10(n) <= MAX_INT
  {
    assert Pow10(6) == 1_000_000;
    assert Pow10(12) == 1_000_000 * Pow10(6);
    assert Pow10(18) == 1_000_000 * Pow10(12);
    PowGrows(n, 18);
  }

  /** 10*v + k on 64-bit ints. */
  function Step(v: nat, k: nat): int {
    var n := 10 * v + k;
    if n <= MAX_INT then n else (n + MAX_INT + 1) % 0x1_0000_0000_0000_0000 - MAX_INT - 1
  }

  /** One more digit overflows exactly when the guard says so. */
  lemma GuardIsExact(v: nat, k: nat)
    requires v <= MAX_INT && k <= 9
    ensures 10 * v + k > MAX_INT <==> v > MAX_INT_DIV_10 || Step(v, k) < 0
  {
    if v <= MAX_INT_DIV_10 && 10 * v + k > MAX_INT {
      assert 10 * v + k <= MAX_INT + 2;
    }
  }

  lemma {:induction false} DigitsMean(s: Bytes)
    ensures AllDigits(s[..Digits(s)]) && (Digits(s) < |s| ==> !IsDigit(s[Digits(s)]))
    ensures Digits(s) == |s| <==> AllDigits(s)
  {
    if s != [] && IsDigit(s[0]) {
      DigitsMean(s[1..]);
      assert s[..Digits(s)] == [s[0]] + s[1..][..Digits(s) - 1];
      assert AllDigits(s) <==> AllDigits(s[1..]) by {
        assert s == [s[0]] + s[1..];
      }
    }
  }

  /** ParseUintBuf: a value, how much of the string was used, and an error. */
  method ParseUintBuf(b: Bytes) returns (v: int, n: nat, err: Option<ParseError>)
    ensures n <= |b| && AllDigits(b[..Digits(b)])
    ensures err.None? ==> n == Digits(b) > 0 && v == Value(b[..n]) <= MAX_INT
    ensures err.None? <==> 0 < Digits(b) && Value(b[..Digits(b)]) <= MAX_INT
    ensures err == Some(EmptyInt) <==> b == []
    ensures err == Some(UnexpectedFirstChar) <==> b != [] && Digits(b) == 0
    ensures err == Some(TooLongInt) <==> Value(b[..Digits(b)]) > MAX_INT
    ensures err == Some(TooLongInt) ==> n < |b|
    ensures err.Some? ==> v == -1
  {
    DigitsMean(b);
    ghost var digits := b[..Digits(b)];
    if |b| == 0 {
      return -1, 0, Some(EmptyInt);
    }
    v := 0;
    for i := 0 to |b|
      invariant i <= Digits(b) && v == Value(b[..i]) && 0 <= v <= MAX_INT
    {
      var c := b[i];
      if !IsDigit(c) {
        assert i == Digits(b);
        if i == 0 {
          return -1, i, Some(UnexpectedFirstChar);
        }
        return v, i, None;
      }
      assert i < Digits(b);
      assert b[..i + 1][..i] == b[..i] && digits[..i + 1] == b[..i + 1];
      assert AllDigits(b[..i + 1]);
      var k := c - 48;
      var vNew := Step(v, k);
      GuardIsExact(v, k);
      assert Value(b[..i + 1]) == 10 * v + k;
      if i >= MAX_SAFE_INT_DIGITS && (v > MAX_INT_DIV_10 || vNew < 0) {
        ValueGrows(digits, i + 1);
        return -1, i, Some(TooLongInt);
      }
      if i < MAX_SAFE_INT_DIGITS {
        ValueBound(b[..i + 1]);
        SafeDigits(i + 1);
      }
      v := vNew;
    }
    assert b[..|b|] == b;
    return v, |b|, None;
  }

  /** ParseUint accepts exactly the non-empty digit strings whose value is an int, and returns that value. */
  method ParseUint(b: Bytes) returns (v: int, err: Option<ParseError>)
    ensures err.None? <==> b != [] && AllDigits(b) && Value(b) <= MAX_INT
    ensures err.None? ==> v == Value(b)
  {
    DigitsMean(b);
    assert b[..|b|] == b;
    var n;
    v, n, err := ParseUintBuf(b);
    if n != |b| {
      return -1, Some(UnexpectedTrailingChar);
    }
  }

  /** AppendUint. */
  function Print(n: nat): (s: Bytes)
    ensures s != [] && AllDigits(s)
  {
    if n < 10 then [48 + n] else Print(n / 10) + [48 + n % 10]
  }

  lemma {:induction false} PrintedValue(n: nat)
    ensures Value(Print(n)) == n
  {
    var s := Print(n);
    if n < 10 {
      assert s[..0] == [];
    } else {
      PrintedValue(n / 10);
      assert s[..|s| - 1] == Print(n / 10);
    }
  }

  /** Parsing inverts printing for every int that can be printed. */
  method PrintThenParse(n: nat) returns (v: int, err: Option<ParseError>)
    requires n <= MAX_INT
    ensures v == n && err.None?
  {
    PrintedValue(n);
    v, err := ParseUint(Print(n));
  }
}
