/**
 The header parser byte by byte, on the packed store: the loop that ParseHeaderBlockSWAR
 replaces, with the positions and the order of error checks of the source.
 */
module HeaderParse {
  import opened Common
  import opened Swar
  import opened HeaderStore
  import opened HeaderLines

  /** The store after Reset. */
  function Empty(): Store {
    Store(seq(MAX_HEADERS, _ => 0), RESERVED, [], None)
  }

  function SetErr(h: Store, e: HeaderError): Store {
    if h.err.None? then h.(err := Some(e)) else h
  }

  function SetErrIf(h: Store, c: bool, e: HeaderError): Store {
    if c then SetErr(h, e) else h
  }

  function TrimLeft(buf: Str, a: nat, b: nat): (r: nat)
    requires b <= |buf|
    ensures a <= r && (r <= b || r == a)
    decreases b - a
  {
    if a < b && IsBlank(buf[a]) then TrimLeft(buf, a + 1, b) else a
  }

  function TrimRight(buf: Str, a: nat, b: nat): (r: nat)
    requires b <= |buf|
    ensures r <= b && (a <= r || r == b)
    decreases b - a
  {
    if b > a && IsBlank(buf[b - 1]) then TrimRight(buf, a, b - 1) else b
  }

  predicate FieldsIn(buf: Str, f: Fields) {
    f.keyStart + f.keyLen <= |buf| && f.valStart + f.valLen <= |buf|
  }

  function KeyOf(buf: Str, f: Fields): Str
    requires FieldsIn(buf, f)
  {
    buf[f.keyStart..f.keyStart + f.keyLen]
  }

  function ValueOf(buf: Str, f: Fields): Str
    requires FieldsIn(buf, f)
  {
    buf[f.valStart..f.valStart + f.valLen]
  }

  /** getVal: the empty string for an empty word. */
  function StoredValue(buf: Str, p: nat): Str {
    if p == 0 || !InBounds(buf, p) then [] else EntryAt(buf, p).value
  }

  /** Where a word and the entry it stands for go: a named slot, the packed array, or the overflow list. */
  function PlaceWord(buf: Str, h: Store, p: nat, e: Entry): (r: Store)
    requires |h.packed| == MAX_HEADERS
    ensures |r.packed| == MAX_HEADERS
  {
    match SlotOf(e.key)
    case Some(i) =>
      if i == IDX_HOST && h.packed[i] != 0 then SetErr(h, MultipleHostHeaders)
      else if i == IDX_CONTENT_LENGTH && h.packed[i] != 0 then
        SetErrIf(h, StoredValue(buf, h.packed[i]) != e.value, DuplicateContentLength)
      else h.(packed := h.packed[i := p])
    case None =>
      if h.count < MAX_HEADERS then h.(packed := h.packed[h.count := p], count := h.count + 1)
      else h.(dynamic := h.dynamic + [e])
  }

  /** The second half of addPacked. */
  function Place(buf: Str, h: Store, f: Fields): (r: Store)
    requires FieldsIn(buf, f) && |h.packed| == MAX_HEADERS
    ensures |r.packed| == MAX_HEADERS
  {
    PlaceWord(buf, h, Pack(f), Entry(KeyOf(buf, f), ValueOf(buf, f)))
  }

  /** What the trimming at the start of addPacked leaves. */
  datatype Cut = NoKey | NoValue | Cut(f: Fields)

  function CutField(buf: Str, keyStart: nat, keyEnd: nat, valStart: nat, valEnd: nat): (r: Cut)
    requires keyEnd <= |buf| && valEnd <= |buf|
    ensures r.Cut? ==> FieldsIn(buf, r.f)
  {
    var ks := TrimLeft(buf, keyStart, keyEnd);
    var ke := TrimRight(buf, ks, keyEnd);
    var vs := TrimLeft(buf, valStart, valEnd);
    var ve := TrimRight(buf, vs, valEnd);
    if ke <= ks then NoKey else if ve < vs then NoValue else Cut(Fields(ks, ke - ks, vs, ve - vs))
  }

  /** addPacked. */
  function AddPacked(buf: Str, h: Store, keyStart: nat, keyEnd: nat, valStart: nat, valEnd: nat): (r: Store)
    requires keyEnd <= |buf| && valEnd <= |buf| && |h.packed| == MAX_HEADERS
    ensures |r.packed| == MAX_HEADERS
  {
    match CutField(buf, keyStart, keyEnd, valStart, valEnd)
    case NoKey => SetErr(h, MalformedHeader)
    case NoValue => h
    case Cut(f) => Place(buf, h, f)
  }

  /** The loop that looks for NUL and CR. */
  function CheckBytes(block: Str, h: Store, j: nat, end: nat): (r: Store)
    requires end <= |block|
    ensures r == h.(err := r.err)
    decreases end - j
  {
    if j >= end then h
    else if block[j] == 0 then CheckBytes(block, SetErr(h, MalformedHeader), j + 1, end)
    else if block[j] == CR then CheckBytes(block, SetErr(h, BareCR), j + 1, end)
    else CheckBytes(block, h, j + 1, end)
  }

  /** The parser's variables; the start of the value follows from the colon's place. */
  datatype Cursor = Cursor(keyStart: nat, colon: Option<nat>, h: Store)

  predicate CursorOk(block: Str, c: Cursor, i: nat) {
    && c.keyStart <= i <= |block|
    && (c.colon.Some? ==> c.keyStart <= c.colon.value < i)
    && |c.h.packed| == MAX_HEADERS
  }

  function ValueStart(block: Str, colon: nat): nat {
    TrimLeft(block, colon + 1, |block|)
  }

  function ValueEnd(block: Str, end: nat): (r: nat)
    requires end <= |block|
    ensures r <= end
  {
    if end > 0 && block[end - 1] == CR then end - 1 else end
  }

  function AtColon(block: Str, c: Cursor, i: nat): Cursor
    requires CursorOk(block, c, i) && i < |block|
  {
    var h1 := SetErrIf(c.h, i == c.keyStart, MalformedHeader);
    var h2 := SetErrIf(h1, i > c.keyStart && IsBlank(block[i - 1]), WhitespaceBeforeColon);
    Cursor(c.keyStart, Some(i), h2)
  }

  /** The entry of a finished line, or the error of a line without a colon. */
  function FinishLine(block: Str, c: Cursor, end: nat): (r: Store)
    requires CursorOk(block, c, end)
    ensures |r.packed| == MAX_HEADERS
  {
    var ve := ValueEnd(block, end);
    match c.colon
    case Some(k) => AddPacked(block, c.h, c.keyStart, k, ValueStart(block, k), ve)
    case None => SetErrIf(c.h, c.keyStart < ve, MalformedHeader)
  }

  predicate StartsBlank(block: Str, i: nat) {
    i < |block| && IsBlank(block[i])
  }

  function AtLineFeed(block: Str, c: Cursor, i: nat): Cursor
    requires CursorOk(block, c, i) && i < |block|
  {
    var h1 := CheckBytes(block, FinishLine(block, c, i), c.keyStart, ValueEnd(block, i));
    Cursor(i + 1, None, SetErrIf(h1, StartsBlank(block, i + 1), ObsFold))
  }

  function Step(block: Str, c: Cursor, i: nat): (r: Cursor)
    requires CursorOk(block, c, i) && i < |block|
    ensures CursorOk(block, r, i + 1)
  {
    if block[i] == COLON && c.colon.None? then AtColon(block, c, i)
    else if block[i] == LF then AtLineFeed(block, c, i)
    else c
  }

  function Begin(block: Str): Cursor {
    Cursor(0, None, SetErrIf(Empty(), StartsBlank(block, 0), ObsFold))
  }

  /** The parser's state after the first `n` bytes. */
  function After(block: Str, n: nat): (c: Cursor)
    requires n <= |block|
    ensures CursorOk(block, c, n)
  {
    if n == 0 then Begin(block) else Step(block, After(block, n - 1), n - 1)
  }

  /** The end of the block: a last line without a line feed. */
  function Flush(block: Str, c: Cursor): Store
    requires CursorOk(block, c, |block|)
  {
    if c.colon.Some? then CheckBytes(block, FinishLine(block, c, |block|), c.keyStart, ValueEnd(block, |block|))
    else if c.keyStart < |block| then FinishLine(block, c, |block|)
    else c.h
  }

  function Parse(block: Str): Store {
    Flush(block, After(block, |block|))
  }

  /** `tr[n]` is the parser's state after the first `n` bytes. */
  ghost predicate Trace(block: Str, tr: seq<Cursor>) {
    && |tr| == |block| + 1
    && tr[0] == Begin(block)
    && (forall j {:trigger Step(block, tr[j], j)} | 0 <= j < |block| ::
          CursorOk(block, tr[j], j) && tr[j + 1] == Step(block, tr[j], j))
  }

  lemma {:induction false} MakeTrace(block: Str, n: nat) returns (tr: seq<Cursor>)
    requires n <= |block|
    ensures |tr| == n + 1
    ensures forall j | 0 <= j <= n :: tr[j] == After(block, j)
  {
    if n == 0 {
      tr := [Begin(block)];
    } else {
      tr := MakeTrace(block, n - 1);
      tr := tr + [After(block, n)];
    }
  }

  lemma GetTrace(block: Str) returns (tr: seq<Cursor>)
    ensures Trace(block, tr)
    ensures CursorOk(block, tr[|block|], |block|) && Parse(block) == Flush(block, tr[|block|])
  {
    tr := MakeTrace(block, |block|);
    forall j | 0 <= j < |block|
      ensures CursorOk(block, tr[j], j) && tr[j + 1] == Step(block, tr[j], j)
    {
      assert tr[j + 1] == After(block, j + 1);
    }
  }

  lemma StepAt(block: Str, tr: seq<Cursor>, j: nat)
    requires Trace(block, tr) && j < |block|
    ensures CursorOk(block, tr[j], j) && tr[j + 1] == Step(block, tr[j], j)
  {
    CursorsOk(block, tr, j);
    assert tr[j + 1] == Step(block, tr[j], j);
  }

  lemma {:induction false} CursorsOk(block: Str, tr: seq<Cursor>, j: nat)
    requires Trace(block, tr) && j <= |block|
    ensures CursorOk(block, tr[j], j)
  {
    if j > 0 {
      CursorsOk(block, tr, j - 1);
      assert tr[j] == Step(block, tr[j - 1], j - 1);
    }
  }

  /** Bytes that are no delimiters change nothing, so a scan may skip them. */
  lemma {:induction false} SkipPlain(block: Str, tr: seq<Cursor>, i: nat, j: nat)
    requires Trace(block, tr) && i <= j <= |block|
    requires forall k | i <= k < j :: !IsDelimiter(block[k])
    ensures tr[j] == tr[i]
    decreases j - i
  {
    if i < j {
      SkipPlain(block, tr, i, j - 1);
      StepAt(block, tr, j - 1);
    }
  }
}
