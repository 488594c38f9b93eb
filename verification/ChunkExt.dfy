/**
 Chunk extensions (section 7.1.1 of RFC 9112): the validator accepts exactly the lists of
 `;name` and `;name=value` with blanks around the parts, blanks at the end included.
 */
module ChunkExt {
  import opened Common
  import opened Octets

  // ---- The grammar ----

  /** validTokenTable. */
  predicate IsTokenByte(b: Octet) {
    || 48 <= b <= 57 || 65 <= b <= 90 || 97 <= b <= 122
    || b == 33 || 35 <= b <= 39 || b == 42 || b == 43 || b == 45 || b == 46
    || 94 <= b <= 96 || b == 124 || b == 126
  }

  predicate IsToken(s: Bytes) {
    s != [] && forall i | 0 <= i < |s| :: IsTokenByte(s[i])
  }

  /** Section 5.6.2 of RFC 9110: letters, digits and these. */
  const TCHAR_MARKS := "!#$%&'*+-.^_`|~"

  predicate IsTchar(b: Octet) {
    || '0' as int <= b <= '9' as int || 'A' as int <= b <= 'Z' as int || 'a' as int <= b <= 'z' as int
    || exists i :: 0 <= i < |TCHAR_MARKS| && b == TCHAR_MARKS[i] as int
  }

  lemma TokenByteMeans(b: Octet)
    ensures IsTokenByte(b) <==> IsTchar(b)
  {
    assert TCHAR_MARKS[0] == '!' && TCHAR_MARKS[1] == '#' && TCHAR_MARKS[2] == '$' && TCHAR_MARKS[3] == '%';
    assert TCHAR_MARKS[4] == '&' && TCHAR_MARKS[5] == '\'' && TCHAR_MARKS[6] == '*' && TCHAR_MARKS[7] == '+';
    assert TCHAR_MARKS[8] == '-' && TCHAR_MARKS[9] == '.' && TCHAR_MARKS[10] == '^' && TCHAR_MARKS[11] == '_';
    assert TCHAR_MARKS[12] == '`' && TCHAR_MARKS[13] == '|' && TCHAR_MARKS[14] == '~';
  }

  predicate AllBlank(s: Bytes) {
    forall i | 0 <= i < |s| :: IsBlank(s[i])
  }

  /** Text of a quoted string that stands for itself. */
  predicate IsQuotedText(b: Octet) {
    b != QUOTE && b != BACKSLASH && (b >= 32 || b == TAB)
  }

  /** A quoted string after its opening quote: text and escaped bytes up to the closing quote. */
  predicate IsQuotedTail(s: Bytes) {
    || s == [QUOTE]
    || (|s| > 1 && IsQuotedText(s[0]) && IsQuotedTail(s[1..]))
    || (|s| > 2 && s[0] == BACKSLASH && IsQuotedTail(s[2..]))
  }

  predicate IsQuoted(s: Bytes) {
    s != [] && s[0] == QUOTE && IsQuotedTail(s[1..])
  }

  datatype Value = Value(before: Bytes, content: Bytes, after: Bytes)
  datatype Ext = Ext(before: Bytes, name: Bytes, after: Bytes, value: Option<Value>)

  predicate IsValue(v: Value) {
    AllBlank(v.before) && (IsToken(v.content) || IsQuoted(v.content)) && AllBlank(v.after)
  }

  predicate IsExt(e: Ext) {
    AllBlank(e.before) && IsToken(e.name) && AllBlank(e.after) && (e.value.Some? ==> IsValue(e.value.value))
  }

  function WriteValue(v: Option<Value>): Bytes {
    if v.None? then [] else [EQUALS] + (v.value.before + (v.value.content + v.value.after))
  }

  function WriteExt(e: Ext): Bytes {
    [SEMICOLON] + (e.before + (e.name + (e.after + WriteValue(e.value))))
  }

  function WriteExts(es: seq<Ext>): Bytes {
    if es == [] then [] else WriteExt(es[0]) + WriteExts(es[1..])
  }

  ghost predicate InGrammar(s: Bytes) {
    exists es: seq<Ext> :: (forall i | 0 <= i < |es| :: IsExt(es[i])) && WriteExts(es) == s
  }

  // ---- The validator's scans ----

  function SkipBlanks(s: Bytes): (r: Bytes)
    ensures |r| <= |s|
  {
    if s != [] && IsBlank(s[0]) then SkipBlanks(s[1..]) else s
  }

  /** Where a name, or a value that is a token, stops. */
  predicate Stops(b: Octet, isName: bool) {
    b == SEMICOLON || (isName && b == EQUALS) || IsBlank(b)
  }

  function StopAt(s: Bytes, isName: bool): (i: nat)
    ensures i <= |s|
  {
    if s == [] || Stops(s[0], isName) then 0 else 1 + StopAt(s[1..], isName)
  }

  /** The rest after a token. */
  function ScanToken(s: Bytes, isName: bool): (r: Option<Bytes>)
    ensures r.Some? ==> |r.value| < |s|
  {
    var n := StopAt(s, isName);
    if IsToken(s[..n]) then Some(s[n..]) else None
  }

  /** The rest after the closing quote. */
  function ScanQuoted(s: Bytes): (r: Option<Bytes>)
    ensures r.Some? ==> |r.value| < |s|
  {
    if s == [] then None
    else if s[0] == QUOTE then Some(s[1..])
    else if s[0] == BACKSLASH then (if |s| < 2 then None else ScanQuoted(s[2..]))
    else if s[0] < 32 && s[0] != TAB then None
    else ScanQuoted(s[1..])
  }

  function ScanValue(s: Bytes): (r: Option<Bytes>)
    ensures r.Some? ==> |r.value| < |s|
  {
    if s == [] then None
    else
      var r := if s[0] == QUOTE then ScanQuoted(s[1..]) else ScanToken(s, false);
      if r.None? then None else Some(SkipBlanks(r.value))
  }

  /** What follows the name of an extension. */
  function ScanTail(s: Bytes): (r: Option<Bytes>)
    ensures r.Some? ==> |r.value| <= |s|
  {
    if s == [] || s[0] == SEMICOLON then Some(s)
    else if s[0] != EQUALS then None
    else ScanValue(SkipBlanks(s[1..]))
  }

  /** One extension: the rest after it. */
  function ScanExt(s: Bytes): (r: Option<Bytes>)
    ensures r.Some? ==> |r.value| < |s|
  {
    if s == [] || s[0] != SEMICOLON then None
    else
      var name := ScanToken(SkipBlanks(s[1..]), true);
      if name.None? then None else ScanTail(SkipBlanks(name.value))
  }

  predicate Accepts(s: Bytes)
    decreases |s|
  {
    s == [] || (ScanExt(s).Some? && Accepts(ScanExt(s).value))
  }

  // ---- The validator ----

  method Skip(s: Bytes) returns (r: Bytes)
    ensures r == SkipBlanks(s)
  {
    r := s;
    while |r| > 0 && IsBlank(r[0])
      invariant SkipBlanks(r) == SkipBlanks(s)
      decreases |r|
    {
      r := r[1..];
    }
  }

  method Token(s: Bytes, isName: bool) returns (r: Option<Bytes>)
    ensures r == ScanToken(s, isName)
  {
    var n := 0;
    while n < |s| && !Stops(s[n], isName)
      invariant n <= |s| && StopAt(s, isName) == n + StopAt(s[n..], isName)
      invariant forall i | 0 <= i < n :: IsTokenByte(s[i])
    {
      assert s[n..][1..] == s[n + 1..];
      if !IsTokenByte(s[n]) {
        assert !IsTokenByte(s[..StopAt(s, isName)][n]);
        return None;
      }
      n := n + 1;
    }
    if n == 0 {
      return None;
    }
    return Some(s[n..]);
  }

  method Quoted(s: Bytes) returns (r: Option<Bytes>)
    ensures r == ScanQuoted(s)
  {
    var t := s;
    while |t| > 0
      invariant ScanQuoted(t) == ScanQuoted(s)
      decreases |t|
    {
      var c := t[0];
      if c == QUOTE {
        return Some(t[1..]);
      }
      if c == BACKSLASH {
        if |t| < 2 {
          return None;
        }
        t := t[2..];
        continue;
      }
      if c < 32 && c != TAB {
        return None;
      }
      t := t[1..];
    }
    return None;
  }

  method ValidateChunkExtensions(s: Bytes) returns (ok: bool)
    ensures ok <==> Accepts(s)
  {
    var ext := s;
    while |ext| > 0
      invariant Accepts(ext) <==> Accepts(s)
      decreases |ext|
    {
      ghost var before := ext;
      if ext[0] != SEMICOLON {
        return false;
      }
      ext := Skip(ext[1..]);
      if |ext| == 0 {
        return false;
      }
      var r := Token(ext, true);
      if r.None? {
        return false;
      }
      ext := Skip(r.value);
      if |ext| == 0 {
        break;
      }
      if ext[0] == SEMICOLON {
        continue;
      }
      if ext[0] != EQUALS {
        return false;
      }
      ext := Skip(ext[1..]);
      if |ext| == 0 {
        return false;
      }
      if ext[0] == QUOTE {
        r := Quoted(ext[1..]);
      } else {
        r := Token(ext, false);
      }
      if r.None? {
        return false;
      }
      ext := Skip(r.value);
    }
    return true;
  }

  // ---- Everything the grammar writes is accepted ----

  lemma {:induction false} SkipOver(b: Bytes, t: Bytes)
    requires AllBlank(b) && (t == [] || !IsBlank(t[0]))
    ensures SkipBlanks(b + t) == t
  {
    if b == [] {
      assert b + t == t;
    } else {
      assert (b + t)[1..] == b[1..] + t;
      SkipOver(b[1..], t);
    }
  }

  lemma {:induction false} StopAfter(n: Bytes, t: Bytes, isName: bool)
    requires (forall i | 0 <= i < |n| :: IsTokenByte(n[i])) && (t == [] || Stops(t[0], isName))
    ensures StopAt(n + t, isName) == |n|
  {
    if n == [] {
      assert n + t == t;
    } else {
      assert (n + t)[1..] == n[1..] + t;
      StopAfter(n[1..], t, isName);
    }
  }

  lemma ScanTokenOf(n: Bytes, t: Bytes, isName: bool)
    requires IsToken(n) && (t == [] || Stops(t[0], isName))
    ensures ScanToken(n + t, isName) == Some(t)
  {
    StopAfter(n, t, isName);
    assert (n + t)[..|n|] == n && (n + t)[|n|..] == t;
  }

  lemma {:induction false} ScanQuotedOf(q: Bytes, t: Bytes)
    requires IsQuotedTail(q)
    ensures ScanQuoted(q + t) == Some(t)
  {
    if q == [QUOTE] {
      assert (q + t)[1..] == t;
    } else if q[0] == BACKSLASH {
      assert (q + t)[2..] == q[2..] + t;
      ScanQuotedOf(q[2..], t);
    } else {
      assert (q + t)[1..] == q[1..] + t;
      ScanQuotedOf(q[1..], t);
    }
  }

  /** What may follow an extension: nothing or the next one. */
  predicate MayFollow(t: Bytes) {
    t == [] || t[0] == SEMICOLON
  }

  lemma ScanContentOf(c: Bytes, after: Bytes, t: Bytes)
    requires (IsToken(c) || IsQuoted(c)) && AllBlank(after) && MayFollow(t)
    ensures ScanValue(c + (after + t)) == Some(t)
  {
    SkipOver(after, t);
    assert after != [] ==> (after + t)[0] == after[0];
    if IsToken(c) {
      ScanTokenOf(c, after + t, false);
    } else {
      assert (c + (after + t))[1..] == c[1..] + (after + t);
      ScanQuotedOf(c[1..], after + t);
    }
  }

  lemma ScanTailOf(v: Option<Value>, t: Bytes)
    requires (v.Some? ==> IsValue(v.value)) && MayFollow(t)
    ensures ScanTail(WriteValue(v) + t) == Some(t)
  {
    if v.Some? {
      var c := v.value.content + (v.value.after + t);
      assert (WriteValue(v) + t)[1..] == v.value.before + c;
      SkipOver(v.value.before, c);
      ScanContentOf(v.value.content, v.value.after, t);
    } else {
      assert WriteValue(v) + t == t;
    }
  }

  lemma ScanExtOf(e: Ext, t: Bytes)
    requires IsExt(e) && MayFollow(t)
    ensures ScanExt(WriteExt(e) + t) == Some(t)
  {
    var tail := WriteValue(e.value) + t;
    assert (WriteExt(e) + t)[1..] == e.before + (e.name + (e.after + tail));
    SkipOver(e.before, e.name + (e.after + tail));
    assert e.after == [] ==> e.after + tail == tail;
    ScanTokenOf(e.name, e.after + tail, true);
    SkipOver(e.after, tail);
    ScanTailOf(e.value, t);
  }

  lemma {:induction false} WrittenIsAccepted(es: seq<Ext>)
    requires forall i | 0 <= i < |es| :: IsExt(es[i])
    ensures Accepts(WriteExts(es)) && MayFollow(WriteExts(es))
    decreases |es|
  {
    if es != [] {
      WrittenIsAccepted(es[1..]);
      ScanExtOf(es[0], WriteExts(es[1..]));
    }
  }

  // ---- Everything accepted is written by the grammar ----

  lemma {:induction false} Blanks(s: Bytes) returns (b: Bytes)
    ensures AllBlank(b) && s == b + SkipBlanks(s)
  {
    if s != [] && IsBlank(s[0]) {
      var b' := Blanks(s[1..]);
      b := [s[0]] + b';
    } else {
      b := [];
    }
  }

  lemma {:induction false} QuotedText(s: Bytes) returns (q: Bytes)
    requires ScanQuoted(s).Some?
    ensures IsQuotedTail(q) && s == q + ScanQuoted(s).value
  {
    if s[0] == QUOTE {
      q := [QUOTE];
    } else if s[0] == BACKSLASH {
      var q' := QuotedText(s[2..]);
      q := s[..2] + q';
      assert q[2..] == q';
    } else {
      var q' := QuotedText(s[1..]);
      q := [s[0]] + q';
      assert q[1..] == q';
    }
  }

  lemma ContentOf(s: Bytes) returns (c: Bytes, after: Bytes)
    requires ScanValue(s).Some?
    ensures (IsToken(c) || IsQuoted(c)) && AllBlank(after)
    ensures s == c + (after + ScanValue(s).value)
  {
    if s[0] == QUOTE {
      var q := QuotedText(s[1..]);
      c := [QUOTE] + q;
      assert c[1..] == q;
      after := Blanks(ScanQuoted(s[1..]).value);
    } else {
      c := s[..StopAt(s, false)];
      after := Blanks(ScanToken(s, false).value);
    }
  }

  lemma TailOf(s: Bytes) returns (v: Option<Value>)
    requires ScanTail(s).Some?
    ensures v.Some? ==> IsValue(v.value)
    ensures s == WriteValue(v) + ScanTail(s).value
  {
    if s == [] || s[0] == SEMICOLON {
      v := None;
    } else {
      var b := Blanks(s[1..]);
      var c, after := ContentOf(SkipBlanks(s[1..]));
      v := Some(Value(b, c, after));
    }
  }

  lemma NameOf(n: Bytes, rest: Bytes) returns (name: Bytes, after: Bytes, v: Option<Value>)
    requires ScanToken(n, true).Some? && ScanTail(SkipBlanks(ScanToken(n, true).value)) == Some(rest)
    ensures IsToken(name) && AllBlank(after) && (v.Some? ==> IsValue(v.value))
    ensures n == name + (after + (WriteValue(v) + rest))
  {
    var i := StopAt(n, true);
    name := n[..i];
    after := Blanks(n[i..]);
    v := TailOf(SkipBlanks(n[i..]));
  }

  lemma Joined(b: Bytes, name: Bytes, after: Bytes, v: Bytes, rest: Bytes)
    ensures [SEMICOLON] + (b + (name + (after + (v + rest)))) == [SEMICOLON] + (b + (name + (after + v))) + rest
  {
    assert after + (v + rest) == (after + v) + rest;
    assert name + ((after + v) + rest) == (name + (after + v)) + rest;
    assert b + ((name + (after + v)) + rest) == (b + (name + (after + v))) + rest;
  }

  lemma ExtOf(s: Bytes) returns (e: Ext)
    requires ScanExt(s).Some?
    ensures IsExt(e) && s == WriteExt(e) + ScanExt(s).value
  {
    var rest := ScanExt(s).value;
    var b := Blanks(s[1..]);
    var name, after, v := NameOf(SkipBlanks(s[1..]), rest);
    e := Ext(b, name, after, v);
    Joined(b, name, after, WriteValue(v), rest);
    assert s == [SEMICOLON] + s[1..];
  }

  lemma {:induction false} AcceptedIsWritten(s: Bytes) returns (es: seq<Ext>)
    requires Accepts(s)
    ensures (forall i | 0 <= i < |es| :: IsExt(es[i])) && WriteExts(es) == s
    decreases |s|
  {
    if s == [] {
      es := [];
    } else {
      var e := ExtOf(s);
      var es' := AcceptedIsWritten(ScanExt(s).value);
      es := [e] + es';
      assert es[1..] == es';
    }
  }

  /** The validator accepts exactly the grammar. */
  lemma ValidatorIsGrammar(s: Bytes)
    ensures Accepts(s) <==> InGrammar(s)
  {
    if Accepts(s) {
      var es := AcceptedIsWritten(s);
    }
    if InGrammar(s) {
      var es: seq<Ext> :| (forall i | 0 <= i < |es| :: IsExt(es[i])) && WriteExts(es) == s;
      WrittenIsAccepted(es);
    }
  }
}
