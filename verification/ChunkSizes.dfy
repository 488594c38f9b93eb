/**
 What a size line of a chunked body states, as a form of the line: digits, blanks and extensions. The lenient
 reader takes anything for extensions, the strict one takes the grammar's lists, and blanks only before them.
 */
module ChunkSizes {
  import opened Common
  import opened Octets
  import opened ChunkExt
  import ChunkLenient
  import ChunkStrict

  /** A size line: a hexadecimal number, blanks, whatever starts with a semicolon, and the line end. */
  datatype Parts = Parts(digits: Bytes, blanks: Bytes, ext: Bytes)

  function Text(p: Parts): Bytes {
    p.digits + p.blanks + p.ext
  }

  ghost predicate Form(p: Parts, line: Bytes, n: nat) {
    line == Text(p) + CRLF && WritesSize(p.digits, n) && AllBlank(p.blanks)
  }

  ghost predicate Lenient(line: Bytes, n: nat) {
    exists p: Parts :: Form(p, line, n) && (p.ext == [] || p.ext[0] == SEMICOLON)
  }

  ghost predicate Strict(line: Bytes, n: nat) {
    exists p: Parts :: Form(p, line, n) && if p.ext == [] then p.blanks == [] else InGrammar(p.ext)
  }

  lemma DigitsOnly(s: Bytes, n: nat)
    requires WritesSize(s, n)
    ensures SEMICOLON !in s && s != [] && !IsBlank(s[|s| - 1])
  {
    var vs: seq<nat> :| Digits(s, vs) && Positional(vs) == n;
    forall i | 0 <= i < |s|
      ensures s[i] != SEMICOLON && !IsBlank(s[i])
    {
      assert IsHexDigit(s[i], vs[i]);
    }
  }

  lemma ExtStarts(s: Bytes)
    requires InGrammar(s) && s != []
    ensures s[0] == SEMICOLON
  {
    var es: seq<Ext> :| (forall i | 0 <= i < |es| :: IsExt(es[i])) && WriteExts(es) == s;
  }

  /** Where the semicolon of a line in this form is, and what is before it. */
  lemma FormText(p: Parts, line: Bytes, n: nat)
    requires Form(p, line, n) && (p.ext == [] || p.ext[0] == SEMICOLON)
    ensures ChunkLenient.EndsInCRLF(line) && line[..|line| - 2] == Text(p)
    ensures IndexOf(Text(p), SEMICOLON) == |p.digits + p.blanks|
    ensures Text(p)[..|p.digits + p.blanks|] == p.digits + p.blanks && Text(p)[|p.digits + p.blanks|..] == p.ext
    ensures TrimTrailing(p.digits + p.blanks) == p.digits && ParseSize(p.digits) == Some(n)
  {
    DigitsOnly(p.digits, n);
    IndexInPrefix(p.digits + p.blanks, p.ext, SEMICOLON);
    TrimExact(p.digits, p.blanks);
    ParseSizeMeans(p.digits, n);
  }

  /** A text cut at its first semicolon, and blanks off the first part. */
  function Cut(text: Bytes): Parts {
    var i := IndexOf(text, SEMICOLON);
    var digits := TrimTrailing(text[..i]);
    Parts(digits, if |digits| <= i then text[..i][|digits|..] else [], text[i..])
  }

  lemma CutForm(line: Bytes, n: nat)
    requires ChunkLenient.EndsInCRLF(line) && ParseSize(Cut(line[..|line| - 2]).digits) == Some(n)
    ensures var p := Cut(line[..|line| - 2]);
            && Form(p, line, n) && (p.ext == [] || p.ext[0] == SEMICOLON)
  {
    var text := line[..|line| - 2];
    var i, p := IndexOf(text, SEMICOLON), Cut(text);
    IndexMeans(text, SEMICOLON);
    TrimMeans(text[..i]);
    ParseSizeMeans(p.digits, n);
    assert p.digits + p.blanks == text[..i];
    assert line == text + CRLF;
  }

  /** The lenient reader ignores everything from the first semicolon on, and blanks before it. */
  lemma LenientSize(line: Bytes, n: nat)
    ensures ChunkLenient.SizeOf(line) == Some(n) <==> Lenient(line, n)
  {
    if ChunkLenient.SizeOf(line) == Some(n) {
      CutForm(line, n);
    }
    if Lenient(line, n) {
      var p: Parts :| Form(p, line, n) && (p.ext == [] || p.ext[0] == SEMICOLON);
      FormText(p, line, n);
    }
  }

  /** The strict reader takes a number alone, or a number, blanks and a list of extensions of the grammar. */
  lemma StrictSize(line: Bytes, n: nat)
    ensures ChunkStrict.SizeOf(line) == ChunkStrict.Ok(n) <==> Strict(line, n)
  {
    if ChunkStrict.SizeOf(line) == ChunkStrict.Ok(n) {
      StrictHasForm(line, n);
    }
    if Strict(line, n) {
      FormIsStrict(line, n);
    }
  }

  lemma StrictHasForm(line: Bytes, n: nat)
    requires ChunkStrict.SizeOf(line) == ChunkStrict.Ok(n)
    ensures Strict(line, n)
  {
    var text := line[..|line| - 2];
    var i := IndexOf(text, SEMICOLON);
    if i == |text| {
      ParseSizeMeans(text, n);
      var p := Parts(text, [], []);
      assert Text(p) == text && line == text + CRLF;
      assert Form(p, line, n);
    } else {
      CutForm(line, n);
      ValidatorIsGrammar(text[i..]);
    }
  }

  lemma FormIsStrict(line: Bytes, n: nat)
    requires Strict(line, n)
    ensures ChunkStrict.SizeOf(line) == ChunkStrict.Ok(n)
  {
    var p: Parts :| Form(p, line, n) && if p.ext == [] then p.blanks == [] else InGrammar(p.ext);
    if p.ext != [] {
      ExtStarts(p.ext);
      ValidatorIsGrammar(p.ext);
    }
    FormText(p, line, n);
    assert p.ext == [] ==> Text(p) == p.digits;
  }
}
