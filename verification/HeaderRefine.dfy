/**
 The byte-by-byte parser on the packed store means what HeaderLines says: the store it
 leaves, read as a list, is the list of the block's lines.
 */
module HeaderRefine {
  import opened Common
  import opened Swar
  import opened HeaderStore
  import opened HeaderLines
  import opened HeaderParse

  // ---- The store as a list ----

  /** What a parse keeps: the overflow list is used only when the packed array is full. */
  ghost predicate Held(buf: Str, h: Store) {
    && StoreOk(buf, h.packed, h.count)
    && (h.count < MAX_HEADERS ==> h.dynamic == [])
  }

  function Slot(buf: Str, p: nat): Option<Entry>
    requires p != 0 ==> InBounds(buf, p)
  {
    if p == 0 then None else Some(EntryAt(buf, p))
  }

  ghost function Slots(buf: Str, packed: seq<nat>): SixSlots
    requires |packed| == MAX_HEADERS
    requires forall i | 0 <= i < MAX_HEADERS && packed[i] != 0 :: InBounds(buf, packed[i])
  {
    seq(6, i requires 0 <= i < 6 => Slot(buf, packed[i]))
  }

  ghost function ListOf(buf: Str, h: Store): Listed
    requires StoreOk(buf, h.packed, h.count)
  {
    Listed(Slots(buf, h.packed), Entries(buf, h.packed, RESERVED, h.count) + h.dynamic, h.err)
  }

  lemma {:induction false} EntriesFrame(buf: Str, p: seq<nat>, q: seq<nat>, lo: nat, hi: nat)
    requires lo <= hi <= |p| == |q|
    requires forall i | lo <= i < hi && p[i] != 0 :: InBounds(buf, p[i])
    requires forall i | lo <= i < hi :: p[i] == q[i]
    ensures Entries(buf, p, lo, hi) == Entries(buf, q, lo, hi)
    decreases hi - lo
  {
    if lo < hi {
      EntriesFrame(buf, p, q, lo, hi - 1);
    }
  }

  /** A field inside a block of at most 65535 bytes survives packing. */
  lemma PackedEntry(buf: Str, f: Fields)
    requires |buf| < FIELD && FieldsIn(buf, f) && f.keyLen > 0
    ensures Pack(f) != 0 && InBounds(buf, Pack(f))
    ensures EntryAt(buf, Pack(f)) == Entry(KeyOf(buf, f), ValueOf(buf, f))
  {
    PackUnpack(f);
    PackNonZero(f);
  }

  lemma PutSlot(buf: Str, h: Store, i: nat, p: nat)
    requires Held(buf, h) && p != 0 && InBounds(buf, p) && SlotOf(EntryAt(buf, p).key) == Some(i)
    ensures Held(buf, h.(packed := h.packed[i := p]))
    ensures ListOf(buf, h.(packed := h.packed[i := p]))
            == ListOf(buf, h).(slots := ListOf(buf, h).slots[i := Some(EntryAt(buf, p))])
  {
    var q := h.packed[i := p];
    EntriesFrame(buf, h.packed, q, RESERVED, h.count);
    assert Slots(buf, q) == Slots(buf, h.packed)[i := Some(EntryAt(buf, p))];
  }

  lemma AppendWord(buf: Str, packed: seq<nat>, count: nat, p: nat)
    requires StoreOk(buf, packed, count) && count < MAX_HEADERS
    requires p != 0 && InBounds(buf, p) && SlotOf(EntryAt(buf, p).key) == None
    ensures StoreOk(buf, packed[count := p], count + 1)
    ensures Entries(buf, packed[count := p], RESERVED, count + 1)
            == Entries(buf, packed, RESERVED, count) + [EntryAt(buf, p)]
    ensures Slots(buf, packed[count := p]) == Slots(buf, packed)
  {
    EntriesFrame(buf, packed, packed[count := p], RESERVED, count);
  }

  lemma PutRest(buf: Str, h: Store, p: nat)
    requires Held(buf, h) && h.count < MAX_HEADERS && p != 0 && InBounds(buf, p) && SlotOf(EntryAt(buf, p).key) == None
    ensures Held(buf, h.(packed := h.packed[h.count := p], count := h.count + 1))
    ensures ListOf(buf, h.(packed := h.packed[h.count := p], count := h.count + 1))
            == ListOf(buf, h).(rest := ListOf(buf, h).rest + [EntryAt(buf, p)])
  {
    AppendWord(buf, h.packed, h.count, p);
    assert h.dynamic == [];
    assert Entries(buf, h.packed, RESERVED, h.count) + [] == Entries(buf, h.packed, RESERVED, h.count);
  }

  lemma PlaceNamed(buf: Str, h: Store, p: nat, e: Entry)
    requires Held(buf, h) && p != 0 && InBounds(buf, p) && EntryAt(buf, p) == e && SlotOf(e.key).Some?
    ensures Held(buf, PlaceWord(buf, h, p, e))
    ensures ListOf(buf, PlaceWord(buf, h, p, e)) == PlaceEntry(ListOf(buf, h), e)
  {
    var i := SlotOf(e.key).value;
    assert ListOf(buf, h).slots[i] == Slot(buf, h.packed[i]);
    PutSlot(buf, h, i, p);
  }

  lemma PlaceOther(buf: Str, h: Store, p: nat, e: Entry)
    requires Held(buf, h) && p != 0 && InBounds(buf, p) && EntryAt(buf, p) == e && SlotOf(e.key).None?
    ensures Held(buf, PlaceWord(buf, h, p, e))
    ensures ListOf(buf, PlaceWord(buf, h, p, e)) == PlaceEntry(ListOf(buf, h), e)
  {
    if h.count < MAX_HEADERS {
      PutRest(buf, h, p);
    } else {
      var packed := Entries(buf, h.packed, RESERVED, h.count);
      assert packed + (h.dynamic + [e]) == (packed + h.dynamic) + [e];
    }
  }

  lemma PlaceRefines(buf: Str, h: Store, f: Fields)
    requires |buf| < FIELD && FieldsIn(buf, f) && f.keyLen > 0 && Held(buf, h)
    ensures Held(buf, Place(buf, h, f))
    ensures ListOf(buf, Place(buf, h, f)) == PlaceEntry(ListOf(buf, h), Entry(KeyOf(buf, f), ValueOf(buf, f)))
  {
    PackedEntry(buf, f);
    if SlotOf(KeyOf(buf, f)).Some? {
      PlaceNamed(buf, h, Pack(f), Entry(KeyOf(buf, f), ValueOf(buf, f)));
    } else {
      PlaceOther(buf, h, Pack(f), Entry(KeyOf(buf, f), ValueOf(buf, f)));
    }
  }

  // ---- Positions and slices ----

  lemma {:induction false} TrimLeftSlice(buf: Str, a: nat, b: nat)
    requires a <= b <= |buf|
    ensures TrimLeft(buf, a, b) <= b
    ensures DropBlanks(buf[a..b]) == buf[TrimLeft(buf, a, b)..b]
    decreases b - a
  {
    if a < b && IsBlank(buf[a]) {
      TrimLeftSlice(buf, a + 1, b);
      assert buf[a..b][1..] == buf[a + 1..b];
    }
  }

  lemma {:induction false} TrimRightSlice(buf: Str, a: nat, b: nat)
    requires a <= b <= |buf|
    ensures a <= TrimRight(buf, a, b)
    ensures DropBlanksEnd(buf[a..b]) == buf[a..TrimRight(buf, a, b)]
    decreases b - a
  {
    if a < b && IsBlank(buf[b - 1]) {
      TrimRightSlice(buf, a, b - 1);
      assert buf[a..b][..b - a - 1] == buf[a..b - 1];
    }
  }

  lemma TrimSlice(buf: Str, a: nat, b: nat)
    requires a <= b <= |buf|
    ensures a <= TrimLeft(buf, a, b) <= TrimRight(buf, TrimLeft(buf, a, b), b) <= b
    ensures Trim(buf[a..b]) == buf[TrimLeft(buf, a, b)..TrimRight(buf, TrimLeft(buf, a, b), b)]
  {
    TrimLeftSlice(buf, a, b);
    TrimRightSlice(buf, TrimLeft(buf, a, b), b);
  }

  /** The search for the value's start does not run past the line's end. */
  lemma {:induction false} TrimLeftStops(buf: Str, a: nat, b: nat)
    requires a <= b <= |buf| && (b == |buf| || !IsBlank(buf[b]))
    ensures TrimLeft(buf, a, |buf|) == TrimLeft(buf, a, b) <= b
    ensures TrimLeft(buf, TrimLeft(buf, a, b), b) == TrimLeft(buf, a, b)
    decreases b - a
  {
    if a < b && IsBlank(buf[a]) {
      TrimLeftStops(buf, a + 1, b);
    }
  }

  /** The value's position, trimmed twice by the code, is the trimmed rest of the line. */
  lemma ValueSlice(buf: Str, k: nat, ve: nat)
    requires k < ve <= |buf| && (ve == |buf| || !IsBlank(buf[ve]))
    ensures var vs := TrimLeft(buf, ValueStart(buf, k), ve);
            vs <= TrimRight(buf, vs, ve) <= ve && buf[vs..TrimRight(buf, vs, ve)] == Trim(buf[k + 1..ve])
  {
    TrimLeftStops(buf, k + 1, ve);
    TrimSlice(buf, k + 1, ve);
  }

  /** The last error check of a line: what it reports first is the first bad byte. */
  lemma {:induction false} CheckSlice(buf: Str, h: Store, j: nat, end: nat)
    requires j <= end <= |buf|
    ensures CheckBytes(buf, h, j, end)
            == match FirstBadByte(buf[j..end]) case None => h case Some(e) => SetErr(h, e)
    decreases end - j
  {
    if j < end {
      assert buf[j..end][0] == buf[j] && buf[j..end][1..] == buf[j + 1..end];
      if buf[j] == 0 {
        CheckSlice(buf, SetErr(h, MalformedHeader), j + 1, end);
      } else if buf[j] == CR {
        CheckSlice(buf, SetErr(h, BareCR), j + 1, end);
      } else {
        CheckSlice(buf, h, j + 1, end);
      }
    }
  }

  lemma SetErrHeld(buf: Str, h: Store, c: bool, e: HeaderError)
    requires Held(buf, h)
    ensures Held(buf, SetErrIf(h, c, e))
    ensures ListOf(buf, SetErrIf(h, c, e)) == OffendIf(ListOf(buf, h), c, e)
  {
  }

  /** The trimmed positions of a line are the trimmed slices. */
  lemma CutSlices(buf: Str, s: nat, k: nat, ve: nat)
    requires s <= k < ve <= |buf| && (ve == |buf| || !IsBlank(buf[ve]))
    ensures var cut := CutField(buf, s, k, ValueStart(buf, k), ve);
            if Trim(buf[s..k]) == [] then cut == NoKey
            else
              && cut.Cut? && cut.f.keyLen > 0
              && KeyOf(buf, cut.f) == Trim(buf[s..k]) && ValueOf(buf, cut.f) == Trim(buf[k + 1..ve])
  {
    TrimSlice(buf, s, k);
    ValueSlice(buf, k, ve);
  }

  lemma AddRefines(buf: Str, h: Store, s: nat, k: nat, ve: nat)
    requires |buf| < FIELD && Held(buf, h)
    requires s <= k < ve <= |buf| && (ve == |buf| || !IsBlank(buf[ve]))
    ensures Held(buf, AddPacked(buf, h, s, k, ValueStart(buf, k), ve))
    ensures ListOf(buf, AddPacked(buf, h, s, k, ValueStart(buf, k), ve))
            == AddField(ListOf(buf, h), Trim(buf[s..k]), Trim(buf[k + 1..ve]))
  {
    CutSlices(buf, s, k, ve);
    var cut := CutField(buf, s, k, ValueStart(buf, k), ve);
    if cut == NoKey {
      SetErrHeld(buf, h, true, MalformedHeader);
    } else {
      PlaceRefines(buf, h, cut.f);
    }
  }

  // ---- Lines ----

  /** The bytes from `s` up to `e` are one line: a line feed or the block's end follows. */
  predicate IsLine(block: Str, s: nat, e: nat) {
    && s <= |block| && (s == 0 || block[s - 1] == LF)
    && e == s + IndexOf(block[s..], LF)
  }

  lemma LineMeans(block: Str, s: nat, e: nat)
    requires IsLine(block, s, e)
    ensures s <= e <= |block| && (e < |block| ==> block[e] == LF)
    ensures forall i | s <= i < e :: block[i] != LF
  {
    IndexMeans(block[s..], LF);
    forall j | s <= j < e
      ensures block[j] != LF
    {
      assert block[s..][j - s] == block[j];
    }
  }

  /** The first colon of a line, or its end. */
  function ColonOf(block: Str, s: nat, e: nat): (k: nat)
    requires s <= e <= |block|
    ensures s <= k <= e
  {
    s + IndexOf(block[s..e], COLON)
  }

  lemma ColonMeans(block: Str, s: nat, e: nat)
    requires s <= e <= |block|
    ensures ColonOf(block, s, e) < e ==> block[ColonOf(block, s, e)] == COLON
    ensures forall i | s <= i < ColonOf(block, s, e) :: block[i] != COLON
  {
    IndexMeans(block[s..e], COLON);
    forall j | s <= j < ColonOf(block, s, e)
      ensures block[j] != COLON
    {
      assert block[s..e][j - s] == block[j];
    }
  }

  /** The parser's state inside a line: the state at its start, and the colon once it is passed. */
  lemma {:induction false} InLine(block: Str, tr: seq<Cursor>, s: nat, e: nat, k: nat, n: nat)
    requires Trace(block, tr) && s <= n <= e <= |block| && s <= k <= e
    requires forall i | s <= i < e :: block[i] != LF
    requires forall i | s <= i < k :: block[i] != COLON
    requires k < e ==> block[k] == COLON
    requires tr[s].keyStart == s && tr[s].colon.None?
    ensures CursorOk(block, tr[s], s)
    ensures n <= k ==> tr[n] == tr[s]
    ensures n > k ==> CursorOk(block, tr[s], k) && tr[n] == AtColon(block, tr[s], k)
    decreases n - s
  {
    CursorsOk(block, tr, s);
    if n > s {
      InLine(block, tr, s, e, k, n - 1);
      StepAt(block, tr, n - 1);
    }
  }

  /** The end of a line's text, its CR cut off. */
  lemma LineText(block: Str, s: nat, e: nat)
    requires IsLine(block, s, e)
    ensures s <= ValueEnd(block, e) && StripCR(block[s..e]) == block[s..ValueEnd(block, e)]
    ensures ValueEnd(block, e) == |block| || !IsBlank(block[ValueEnd(block, e)])
  {
    LineMeans(block, s, e);
    if s < e {
      assert block[s..e][e - s - 1] == block[e - 1];
    }
  }

  lemma ColonRefines(block: Str, c: Cursor, k: nat)
    requires k < |block| && CursorOk(block, c, k) && Held(block, c.h)
    ensures Held(block, AtColon(block, c, k).h)
    ensures ListOf(block, AtColon(block, c, k).h) == AtColonOf(ListOf(block, c.h), block[c.keyStart..k])
  {
    var name := block[c.keyStart..k];
    assert name != [] ==> name[|name| - 1] == block[k - 1];
    SetErrHeld(block, c.h, k == c.keyStart, MalformedHeader);
    var first := SetErrIf(c.h, k == c.keyStart, MalformedHeader);
    SetErrHeld(block, first, k > c.keyStart && IsBlank(block[k - 1]), WhitespaceBeforeColon);
  }

  lemma ColonBeforeEnd(block: Str, s: nat, e: nat)
    requires s <= e <= |block| && ColonOf(block, s, e) < e
    ensures ColonOf(block, s, e) < ValueEnd(block, e)
  {
    ColonMeans(block, s, e);
  }

  /** The slices that Field takes of a line, as slices of the block. */
  lemma LineSlices(block: Str, s: nat, k: nat, e: nat)
    requires e <= |block| && s <= k < ValueEnd(block, e)
    ensures block[s..e][..k - s] == block[s..k]
    ensures StripCR(block[s..e][k - s + 1..]) == block[k + 1..ValueEnd(block, e)]
  {
    assert block[s..e][k - s + 1..] == block[k + 1..e];
    assert k + 1 < e ==> block[k + 1..e][e - k - 2] == block[e - 1];
  }

  /** The state at the end of a line, from the state at its start. */
  function AtEnd(block: Str, c: Cursor, s: nat, e: nat): (d: Cursor)
    requires IsLine(block, s, e) && CursorOk(block, c, s) && c.keyStart == s && c.colon.None?
    ensures CursorOk(block, d, e)
  {
    var k := ColonOf(block, s, e);
    if k < e then AtColon(block, c, k) else c
  }

  lemma FieldParts(l: Listed, line: Str, name: Str, rest: Str)
    requires IndexOf(line, COLON) < |line|
    requires name == line[..IndexOf(line, COLON)] && rest == StripCR(line[IndexOf(line, COLON) + 1..])
    ensures Field(l, line) == AddField(AtColonOf(l, name), Trim(name), Trim(rest))
  {
  }

  lemma FieldOfLine(block: Str, l: Listed, s: nat, k: nat, e: nat)
    requires s <= e <= |block| && k == ColonOf(block, s, e) < e && k < ValueEnd(block, e)
    ensures Field(l, block[s..e])
            == AddField(AtColonOf(l, block[s..k]), Trim(block[s..k]), Trim(block[k + 1..ValueEnd(block, e)]))
  {
    LineSlices(block, s, k, e);
    FieldParts(l, block[s..e], block[s..k], block[k + 1..ValueEnd(block, e)]);
  }

  lemma FinishOfLine(block: Str, c: Cursor, s: nat, e: nat)
    requires IsLine(block, s, e) && CursorOk(block, c, s) && c.keyStart == s && c.colon.None?
    ensures var k := ColonOf(block, s, e);
            var ve := ValueEnd(block, e);
            FinishLine(block, AtEnd(block, c, s, e), e) ==
              if k < e then AddPacked(block, AtColon(block, c, k).h, s, k, ValueStart(block, k), ve)
              else SetErrIf(c.h, s < ve, MalformedHeader)
  {
  }

  lemma FieldWithColon(block: Str, c: Cursor, s: nat, k: nat, ve: nat)
    requires |block| < FIELD && CursorOk(block, c, s) && c.keyStart == s && c.colon.None?
    requires s <= k < ve <= |block| && (ve == |block| || !IsBlank(block[ve]))
    requires Held(block, c.h)
    ensures var r := AddPacked(block, AtColon(block, c, k).h, s, k, ValueStart(block, k), ve);
            && Held(block, r)
            && ListOf(block, r)
               == AddField(AtColonOf(ListOf(block, c.h), block[s..k]), Trim(block[s..k]), Trim(block[k + 1..ve]))
  {
    ColonRefines(block, c, k);
    var h := AtColon(block, c, k).h;
    AddRefines(block, h, s, k, ve);
  }

  /** A finished line adds its field. */
  lemma FieldRefines(block: Str, c: Cursor, s: nat, e: nat)
    requires |block| < FIELD && IsLine(block, s, e) && CursorOk(block, c, s) && c.keyStart == s && c.colon.None?
    requires Held(block, c.h)
    ensures Held(block, FinishLine(block, AtEnd(block, c, s, e), e))
    ensures ListOf(block, FinishLine(block, AtEnd(block, c, s, e), e)) == Field(ListOf(block, c.h), block[s..e])
  {
    LineText(block, s, e);
    FinishOfLine(block, c, s, e);
    var k := ColonOf(block, s, e);
    if k < e {
      ColonBeforeEnd(block, s, e);
      FieldOfLine(block, ListOf(block, c.h), s, k, e);
      FieldWithColon(block, c, s, k, ValueEnd(block, e));
    } else {
      SetErrHeld(block, c.h, s < ValueEnd(block, e), MalformedHeader);
    }
  }

  /** The store when the line from `s` to `e` and its bytes are dealt with. */
  function LineStore(block: Str, c: Cursor, s: nat, e: nat): Store
    requires IsLine(block, s, e) && CursorOk(block, c, s) && c.keyStart == s && c.colon.None?
  {
    CheckBytes(block, FinishLine(block, AtEnd(block, c, s, e), e), s, ValueEnd(block, e))
  }

  lemma CheckRefines(block: Str, h: Store, s: nat, e: nat)
    requires IsLine(block, s, e) && Held(block, h)
    ensures var r := CheckBytes(block, h, s, ValueEnd(block, e));
            && Held(block, r)
            && ListOf(block, r) == match FirstBadByte(StripCR(block[s..e]))
                                   case None => ListOf(block, h)
                                   case Some(x) => Offend(ListOf(block, h), x)
  {
    LineText(block, s, e);
    CheckSlice(block, h, s, ValueEnd(block, e));
  }

  lemma BodyRefines(block: Str, c: Cursor, s: nat, e: nat)
    requires |block| < FIELD && IsLine(block, s, e) && CursorOk(block, c, s) && c.keyStart == s && c.colon.None?
    requires Held(block, c.h)
    ensures Held(block, LineStore(block, c, s, e))
    ensures ListOf(block, LineStore(block, c, s, e)) == Body(ListOf(block, c.h), block[s..e])
  {
    FieldRefines(block, c, s, e);
    CheckRefines(block, FinishLine(block, AtEnd(block, c, s, e), e), s, e);
  }

  /** A last line without a colon has its error before its bytes are looked at, so skipping that check is harmless. */
  lemma FlushIsLine(block: Str, c: Cursor, s: nat)
    requires IsLine(block, s, |block|) && CursorOk(block, c, s) && c.keyStart == s && c.colon.None?
    ensures Flush(block, AtEnd(block, c, s, |block|)) == LineStore(block, c, s, |block|)
  {
    var e := |block|;
    LineText(block, s, e);
    CheckSlice(block, FinishLine(block, AtEnd(block, c, s, e), e), s, ValueEnd(block, e));
    if AtEnd(block, c, s, e).colon.None? {
      assert s < ValueEnd(block, e) ==> FinishLine(block, c, e).err.Some?;
    }
  }

  lemma ObsFoldOfLine(block: Str, s: nat, e: nat)
    requires IsLine(block, s, e)
    ensures StartsBlank(block, s) <==> block[s..e] != [] && IsBlank(block[s..e][0])
  {
  }

  /** The parser's state at a line's end. */
  lemma ToLineEnd(block: Str, tr: seq<Cursor>, s: nat, e: nat)
    requires Trace(block, tr) && IsLine(block, s, e)
    requires tr[s].keyStart == s && tr[s].colon.None?
    ensures CursorOk(block, tr[s], s) && tr[e] == AtEnd(block, tr[s], s, e)
  {
    LineMeans(block, s, e);
    ColonMeans(block, s, e);
    InLine(block, tr, s, e, ColonOf(block, s, e), e);
  }

  /** At `s` a line starts, and the store read as a list is `l`, the line's fold already noted. */
  ghost predicate LineStart(block: Str, c: Cursor, s: nat, l: Listed) {
    && s <= |block| && (s == 0 || block[s - 1] == LF)
    && CursorOk(block, c, s) && c.keyStart == s && c.colon.None?
    && Held(block, c.h) && ListOf(block, c.h) == OffendIf(l, StartsBlank(block, s), ObsFold)
  }

  lemma LineRefines(block: Str, c: Cursor, s: nat, e: nat, l: Listed)
    requires |block| < FIELD && LineStart(block, c, s, l) && IsLine(block, s, e)
    ensures Held(block, LineStore(block, c, s, e))
    ensures ListOf(block, LineStore(block, c, s, e)) == Line(l, block[s..e])
  {
    ObsFoldOfLine(block, s, e);
    BodyRefines(block, c, s, e);
  }

  lemma NextCursor(block: Str, tr: seq<Cursor>, s: nat, e: nat)
    requires Trace(block, tr) && IsLine(block, s, e) && e < |block|
    requires CursorOk(block, tr[s], s) && tr[s].keyStart == s && tr[s].colon.None?
    ensures tr[e + 1]
            == Cursor(e + 1, None, SetErrIf(LineStore(block, tr[s], s, e), StartsBlank(block, e + 1), ObsFold))
  {
    LineMeans(block, s, e);
    ToLineEnd(block, tr, s, e);
    StepAt(block, tr, e);
  }

  lemma StartNext(block: Str, c: Cursor, n: nat, h: Store, k: Listed)
    requires 0 < n <= |block| && block[n - 1] == LF && Held(block, h) && ListOf(block, h) == k
    requires c == Cursor(n, None, SetErrIf(h, StartsBlank(block, n), ObsFold)) && CursorOk(block, c, n)
    ensures LineStart(block, c, n, k)
  {
  }

  lemma NextLine(block: Str, tr: seq<Cursor>, s: nat, e: nat, h: Store, k: Listed)
    requires Trace(block, tr) && IsLine(block, s, e) && e < |block|
    requires CursorOk(block, tr[s], s) && tr[s].keyStart == s && tr[s].colon.None?
    requires h == LineStore(block, tr[s], s, e) && Held(block, h) && ListOf(block, h) == k
    ensures LineStart(block, tr[e + 1], e + 1, k)
  {
    assert block[e] == LF by {
      LineMeans(block, s, e);
    }
    NextCursor(block, tr, s, e);
    CursorsOk(block, tr, e + 1);
    StartNext(block, tr[e + 1], e + 1, h, k);
  }

  lemma NextStart(block: Str, tr: seq<Cursor>, s: nat, e: nat, l: Listed)
    requires |block| < FIELD && Trace(block, tr) && IsLine(block, s, e) && e < |block| && LineStart(block, tr[s], s, l)
    ensures LineStart(block, tr[e + 1], e + 1, Line(l, block[s..e]))
  {
    LineRefines(block, tr[s], s, e, l);
    NextLine(block, tr, s, e, LineStore(block, tr[s], s, e), Line(l, block[s..e]));
  }

  lemma FoldFrom<T>(f: (T, Str) -> T, t: T, block: Str, s: nat, e: nat)
    requires IsLine(block, s, e)
    ensures FoldLines(f, t, block[s..])
            == if e == |block| then f(t, block[s..]) else FoldLines(f, f(t, block[s..e]), block[e + 1..])
  {
    if e < |block| {
      assert block[s..][..e - s] == block[s..e];
      assert block[s..][e - s + 1..] == block[e + 1..];
    }
  }

  /** What holds at the first line, and at the next line when it holds at one, holds at the last line. */
  lemma {:induction false} LineByLine<T>(f: (T, Str) -> T, t: T, block: Str, s: nat, P: (nat, T) -> bool)
    returns (z: nat, k: T)
    requires s <= |block| && (s == 0 || block[s - 1] == LF) && P(s, t)
    requires forall a: nat, b: nat, m: T | IsLine(block, a, b) && b < |block| && P(a, m) :: P(b + 1, f(m, block[a..b]))
    ensures IsLine(block, z, |block|) && P(z, k)
    ensures FoldLines(f, t, block[s..]) == f(k, block[z..])
    decreases |block| - s
  {
    var e := s + IndexOf(block[s..], LF);
    FoldFrom(f, t, block, s, e);
    if e == |block| {
      z, k := s, t;
    } else {
      LineMeans(block, s, e);
      z, k := LineByLine(f, f(t, block[s..e]), block, e + 1, P);
    }
  }

  lemma EmptyIsEmpty(block: Str)
    ensures Held(block, Empty()) && ListOf(block, Empty()) == EmptyList
  {
    assert Entries(block, Empty().packed, RESERVED, RESERVED) == [];
    assert Slots(block, Empty().packed) == EmptyList.slots;
  }

  lemma StartOfBlock(block: Str)
    ensures LineStart(block, Begin(block), 0, EmptyList)
  {
    EmptyIsEmpty(block);
    SetErrHeld(block, Empty(), StartsBlank(block, 0), ObsFold);
  }

  lemma LastLine(block: Str, tr: seq<Cursor>, z: nat, k: Listed)
    requires |block| < FIELD && Trace(block, tr) && IsLine(block, z, |block|) && LineStart(block, tr[z], z, k)
    ensures CursorOk(block, tr[|block|], |block|)
    ensures Held(block, Flush(block, tr[|block|])) && ListOf(block, Flush(block, tr[|block|])) == Line(k, block[z..])
  {
    ToLineEnd(block, tr, z, |block|);
    FlushIsLine(block, tr[z], z);
    LineRefines(block, tr[z], z, |block|, k);
    assert block[z..|block|] == block[z..];
  }

  /** The invariant at line starts, as a predicate of the start and the list so far. */
  ghost function Starts(block: Str, tr: seq<Cursor>): (nat, Listed) -> bool {
    (s: nat, l: Listed) => s <= |block| && s < |tr| && LineStart(block, tr[s], s, l)
  }

  lemma StartsCarry(block: Str, tr: seq<Cursor>, a: nat, b: nat, m: Listed)
    requires |block| < FIELD && Trace(block, tr) && IsLine(block, a, b) && b < |block| && Starts(block, tr)(a, m)
    ensures Starts(block, tr)(b + 1, Line(m, block[a..b]))
  {
    NextStart(block, tr, a, b, m);
  }

  lemma AllLines(block: Str, tr: seq<Cursor>) returns (z: nat, k: Listed)
    requires |block| < FIELD && Trace(block, tr)
    ensures IsLine(block, z, |block|) && LineStart(block, tr[z], z, k)
    ensures Lines(block) == Line(k, block[z..])
  {
    StartOfBlock(block);
    var P := Starts(block, tr);
    assert P(0, EmptyList);
    forall a: nat, b: nat, m: Listed | IsLine(block, a, b) && b < |block| && P(a, m)
      ensures P(b + 1, Line(m, block[a..b]))
    {
      StartsCarry(block, tr, a, b, m);
    }
    z, k := LineByLine(Line, EmptyList, block, 0, P);
    assert block[0..] == block;
  }

  /** The parsed store, read as a list, is what the block's lines say, for every block the 16-bit fields can address. */
  lemma ParseMeansLines(block: Str)
    requires |block| < FIELD
    ensures Held(block, Parse(block))
    ensures ListOf(block, Parse(block)) == Lines(block)
  {
    var tr := GetTrace(block);
    var z, k := AllLines(block, tr);
    LastLine(block, tr, z, k);
  }
}
