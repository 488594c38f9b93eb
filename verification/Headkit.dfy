/** The header store with its parser, as an object that is changed in place. */
module Headkit {
  import opened Common
  import opened Swar
  import opened HeaderStore
  import opened HeaderLines
  import opened HeaderParse
  import opened HeaderRefine
  import opened HeaderLookup
  import opened HeaderMeaning

  class Headers {
    var buf: Str
    const packed: array<nat>
    var count: nat
    var dynamic: seq<Entry>
    var err: Option<HeaderError>

    ghost function Abs(): Store
      reads this, packed
    {
      Store(packed[..], count, dynamic, err)
    }

    constructor ()
      ensures fresh(packed) && Abs() == Empty() && buf == []
    {
      packed := new nat[MAX_HEADERS](_ => 0);
      buf, count, dynamic, err := [], RESERVED, [], None;
    }

    method Fail(e: HeaderError)
      modifies this`err
      ensures Abs() == SetErr(old(Abs()), e)
    {
      if err == None {
        err := Some(e);
      }
    }

    /** The trimming loops of addPacked. */
    method TrimRange(start: nat, end: nat) returns (a: nat, b: nat)
      requires end <= |buf|
      ensures a == TrimLeft(buf, start, end) && b == TrimRight(buf, a, end)
    {
      a := start;
      while a < end && IsBlank(buf[a])
        invariant TrimLeft(buf, a, end) == TrimLeft(buf, start, end)
      {
        a := a + 1;
      }
      b := end;
      while b > a && IsBlank(buf[b - 1])
        invariant b <= end && TrimRight(buf, a, b) == TrimRight(buf, a, end)
      {
        b := b - 1;
      }
    }

    method PlaceFields(f: Fields)
      requires packed.Length == MAX_HEADERS && FieldsIn(buf, f)
      modifies this, packed
      ensures buf == old(buf) && Abs() == Place(buf, old(Abs()), f)
    {
      var p := Pack(f);
      var key := KeyOf(buf, f);
      match SlotOf(key) {
        case Some(i) =>
          if i == IDX_HOST && packed[i] != 0 {
            Fail(MultipleHostHeaders);
          } else if i == IDX_CONTENT_LENGTH && packed[i] != 0 {
            if StoredValue(buf, packed[i]) != ValueOf(buf, f) {
              Fail(DuplicateContentLength);
            }
          } else {
            packed[i] := p;
            assert packed[..] == old(packed[..])[i := p];
          }
        case None =>
          if count < MAX_HEADERS {
            packed[count] := p;
            assert packed[..] == old(packed[..])[count := p];
            count := count + 1;
          } else {
            dynamic := dynamic + [Entry(key, ValueOf(buf, f))];
          }
      }
    }

    method AddPacked(keyStart: nat, keyEnd: nat, valStart: nat, valEnd: nat)
      requires packed.Length == MAX_HEADERS && keyEnd <= |buf| && valEnd <= |buf|
      modifies this, packed
      ensures buf == old(buf) && Abs() == HeaderParse.AddPacked(buf, old(Abs()), keyStart, keyEnd, valStart, valEnd)
    {
      var ks, ke := TrimRange(keyStart, keyEnd);
      var vs, ve := TrimRange(valStart, valEnd);
      if ke <= ks || ve < vs {
        if ke <= ks {
          Fail(MalformedHeader);
        }
        return;
      }
      PlaceFields(Fields(ks, ke - ks, vs, ve - vs));
    }

    /** The loop that looks for NUL and CR. */
    method CheckRange(start: nat, end: nat)
      requires end <= |buf|
      modifies this`err
      ensures Abs() == CheckBytes(buf, old(Abs()), start, end)
    {
      var j := start;
      while j < end
        invariant CheckBytes(buf, Abs(), j, end) == CheckBytes(buf, old(Abs()), start, end)
      {
        var b := buf[j];
        if b == 0 {
          Fail(MalformedHeader);
        } else if b == CR {
          Fail(BareCR);
        }
        j := j + 1;
      }
    }

    /** The parser's local variables and the store, as the byte-by-byte parser has them. */
    ghost predicate At(c: Cursor, keyStart: nat, keyEnd: int, valStart: int)
      reads this, packed
    {
      && c.keyStart == keyStart
      && c.h == Abs()
      && (c.colon.None? <==> keyEnd == -1)
      && (c.colon.Some? ==> c.colon.value == keyEnd && valStart == ValueStart(buf, c.colon.value))
    }

    method Colon(i: nat, keyStart: nat, ghost c: Cursor) returns (valStart: nat)
      requires i < |buf| && packed.Length == MAX_HEADERS && CursorOk(buf, c, i) && At(c, keyStart, -1, -1)
      modifies this`err
      ensures At(AtColon(buf, c, i), keyStart, i, valStart)
    {
      if i == keyStart {
        Fail(MalformedHeader);
      }
      if i > keyStart && IsBlank(buf[i - 1]) {
        Fail(WhitespaceBeforeColon);
      }
      valStart := i + 1;
      while valStart < |buf| && IsBlank(buf[valStart])
        invariant valStart <= |buf| && TrimLeft(buf, valStart, |buf|) == ValueStart(buf, i)
      {
        valStart := valStart + 1;
      }
    }

    method LineFeed(i: nat, keyStart: nat, keyEnd: int, valStart: int, ghost c: Cursor)
      requires i < |buf| && packed.Length == MAX_HEADERS && CursorOk(buf, c, i) && At(c, keyStart, keyEnd, valStart)
      modifies this, packed
      ensures buf == old(buf) && At(AtLineFeed(buf, c, i), i + 1, -1, -1)
    {
      var valEnd := i;
      if valEnd > 0 && buf[valEnd - 1] == CR {
        valEnd := valEnd - 1;
      }
      if keyEnd != -1 {
        AddPacked(keyStart, keyEnd, valStart, valEnd);
      } else if keyStart < valEnd {
        Fail(MalformedHeader);
      }
      CheckRange(keyStart, valEnd);
      if i + 1 < |buf| && IsBlank(buf[i + 1]) {
        Fail(ObsFold);
      }
    }

    /** What both loops do with the byte at `i`. */
    method Byte(i: nat, keyStart: nat, keyEnd: int, valStart: int, ghost tr: seq<Cursor>)
      returns (ks: nat, ke: int, vs: int)
      requires i < |buf| && packed.Length == MAX_HEADERS && Trace(buf, tr) && At(tr[i], keyStart, keyEnd, valStart)
      modifies this, packed
      ensures buf == old(buf) && At(tr[i + 1], ks, ke, vs)
    {
      StepAt(buf, tr, i);
      ks, ke, vs := keyStart, keyEnd, valStart;
      if buf[i] == COLON && keyEnd == -1 {
        vs := Colon(i, keyStart, tr[i]);
        ke := i;
      } else if buf[i] == LF {
        LineFeed(i, keyStart, keyEnd, valStart, tr[i]);
        ks, ke, vs := i + 1, -1, -1;
      }
    }

    /** Every delimiter of the word at `i` from byte `step` on has its lane, and no lane before `step` is left. */
    ghost predicate LanesLeft(i: nat, step: nat, lanes: seq<bool>)
      requires i + 8 <= |buf|
      reads this
    {
      && step <= 8 == |lanes|
      && (forall k | 0 <= k < step :: !lanes[k])
      && (forall k | step <= k < 8 :: IsDelimiter(buf[i + k]) ==> lanes[k])
    }

    /** The byte of lane `k`, the first one left; false lanes fall through. */
    method LaneByte(i: nat, step: nat, k: nat, ghost lanes: seq<bool>, keyStart: nat, keyEnd: int, valStart: int,
                    ghost tr: seq<Cursor>)
      returns (ks: nat, ke: int, vs: int)
      requires i + 8 <= |buf| && packed.Length == MAX_HEADERS && LanesLeft(i, step, lanes)
      requires k < 8 && lanes[k] && (forall j | 0 <= j < k :: !lanes[j])
      requires Trace(buf, tr) && At(tr[i + step], keyStart, keyEnd, valStart)
      modifies this, packed
      ensures buf == old(buf) && LanesLeft(i, k + 1, lanes[k := false]) && At(tr[i + k + 1], ks, ke, vs)
    {
      forall j | i + step <= j < i + k
        ensures !IsDelimiter(buf[j])
      {
        assert !lanes[j - i];
      }
      SkipPlain(buf, tr, i + step, i + k);
      ks, ke, vs := Byte(i + k, keyStart, keyEnd, valStart, tr);
    }

    /** The delimiters of one word, taken off the mask lane by lane. */
    method Word(i: nat, m: bv64, ghost lanes0: seq<bool>, keyStart: nat, keyEnd: int, valStart: int,
                ghost tr: seq<Cursor>)
      returns (step: nat, ks: nat, ke: int, vs: int)
      requires i + 8 <= |buf| && packed.Length == MAX_HEADERS && Trace(buf, tr) && At(tr[i], keyStart, keyEnd, valStart)
      requires Shows(m, lanes0) && m != 0 && LanesLeft(i, 0, lanes0)
      modifies this, packed
      ensures 0 < step <= 8
      ensures buf == old(buf) && At(tr[i + step], ks, ke, vs)
    {
      ks, ke, vs := keyStart, keyEnd, valStart;
      var mask := m;
      ghost var lanes := lanes0;
      step := 0;
      while mask != 0
        invariant buf == old(buf) && Shows(mask, lanes) && LanesLeft(i, step, lanes)
        invariant mask != 0 || step > 0
        invariant At(tr[i + step], ks, ke, vs)
        decreases 8 - step
      {
        var k, rest := TakeLane(mask, lanes);
        ks, ke, vs := LaneByte(i, step, k, lanes, ks, ke, vs, tr);
        lanes := lanes[k := false];
        mask := rest;
        step := k + 1;
      }
    }

    /** What follows the loops: a last line that does not end in a line feed. */
    method FlushLast(keyStart: nat, keyEnd: int, valStart: int, ghost c: Cursor)
      requires packed.Length == MAX_HEADERS && CursorOk(buf, c, |buf|) && At(c, keyStart, keyEnd, valStart)
      modifies this, packed
      ensures buf == old(buf) && Abs() == Flush(buf, c)
    {
      var valEnd := |buf|;
      if valEnd > 0 && buf[valEnd - 1] == CR {
        valEnd := valEnd - 1;
      }
      if keyEnd != -1 {
        AddPacked(keyStart, keyEnd, valStart, valEnd);
        CheckRange(keyStart, valEnd);
      } else if keyStart < |buf| {
        if keyStart < valEnd {
          Fail(MalformedHeader);
        }
      }
    }

    /**
     ParseHeaderBlockSWAR on a reset store: eight bytes at a time, yet exactly the store that
     the byte-by-byte parser leaves, entries, order, overflow and first error alike.
     */
    method ParseHeaderBlockSWAR(block: Str)
      requires packed.Length == MAX_HEADERS && Abs() == Empty()
      modifies this, packed
      ensures buf == block && Abs() == Parse(block)
    {
      ghost var tr := GetTrace(block);
      buf := block;
      count := RESERVED;
      if |block| > 0 && IsBlank(block[0]) {
        Fail(ObsFold);
      }
      var keyStart: nat, keyEnd, valStart := 0, -1, -1;
      var i := 0;
      while i + 8 <= |block|
        invariant i <= |block| && buf == block && At(tr[i], keyStart, keyEnd, valStart)
      {
        var mask, lanes := ScanWord(block, i);
        if mask == 0 {
          NoLanes(mask, lanes);
          SkipPlain(block, tr, i, i + 8);
          i := i + 8;
          continue;
        }
        var step;
        step, keyStart, keyEnd, valStart := Word(i, mask, lanes, keyStart, keyEnd, valStart, tr);
        i := i + step;
      }
      while i < |block|
        invariant i <= |block| && buf == block && At(tr[i], keyStart, keyEnd, valStart)
      {
        keyStart, keyEnd, valStart := Byte(i, keyStart, keyEnd, valStart, tr);
        i := i + 1;
      }
      FlushLast(keyStart, keyEnd, valStart, tr[i]);
    }

    // ---- The store in use ----

    ghost predicate Valid()
      reads this, packed
    {
      packed.Length == MAX_HEADERS && StoreOk(buf, packed[..], count)
    }

    /** The entries in order, as All() yields them. */
    ghost function Contents(): seq<Entry>
      requires Valid()
      reads this, packed
    {
      View(buf, Abs())
    }

    /** All: the packed words in order, then the overflow list. */
    method All() returns (es: seq<Entry>)
      requires Valid()
      ensures es == Contents()
    {
      es := [];
      for i := 0 to count
        invariant es == Entries(buf, packed[..], 0, i)
      {
        if packed[i] != 0 {
          es := es + [EntryAt(buf, packed[i])];
        }
      }
      ghost var words := es;
      for i := 0 to |dynamic|
        invariant es == words + dynamic[..i]
      {
        es := es + [dynamic[i]];
      }
      assert dynamic[..|dynamic|] == dynamic;
    }

    method Get(key: Str) returns (value: Str)
      requires Valid()
      ensures value == Lookup(buf, Abs(), key)
    {
      var slot := SlotOf(key);
      if slot.Some? && StoredValue(buf, packed[slot.value]) != [] {
        return StoredValue(buf, packed[slot.value]);
      }
      FirstMatchConcat(Entries(buf, packed[..], RESERVED, count), dynamic, key);
      var found := FindPacked(key);
      if found.Some? {
        return found.value;
      }
      value := FindDynamic(key);
    }

    /** The scan of the packed words behind the reserved ones. */
    method FindPacked(key: Str) returns (found: Option<Str>)
      requires Valid()
      ensures found == FirstMatch(Entries(buf, packed[..], RESERVED, count), key)
    {
      ghost var words := packed[..];
      for i := RESERVED to count
        invariant forall j | RESERVED <= j < i && words[j] != 0 :: !EqualFold(EntryAt(buf, words[j]).key, key)
      {
        if packed[i] != 0 && EqualFold(EntryAt(buf, packed[i]).key, key) {
          MatchAt(buf, words, count, key, RESERVED, i, count);
          return Some(EntryAt(buf, packed[i]).value);
        }
      }
      NoMatch(buf, words, key, RESERVED, count);
      found := None;
    }

    method FindDynamic(key: Str) returns (value: Str)
      ensures value == ValueOr(FirstMatch(dynamic, key))
    {
      for i := 0 to |dynamic|
        invariant FirstMatch(dynamic, key) == FirstMatch(dynamic[i..], key)
      {
        if EqualFold(dynamic[i].key, key) {
          return dynamic[i].value;
        }
        assert dynamic[i..][1..] == dynamic[i + 1..];
      }
      value := [];
    }

    method ClearWords(key: Str)
      requires Valid()
      modifies packed
      ensures Valid()
      ensures Entries(buf, packed[..], 0, count) == Without(old(Entries(buf, packed[..], 0, count)), key)
    {
      ghost var was := packed[..];
      for i := 0 to count
        invariant Valid() && Cleared(buf, was, packed[..], key, i)
        invariant packed[i..] == was[i..]
      {
        ghost var now := packed[..];
        assert packed[i] == was[i..][0];
        if packed[i] != 0 && EqualFold(EntryAt(buf, packed[i]).key, key) {
          ClearOne(buf, was, now, count, key, i);
          packed[i] := 0;
          assert packed[..] == now[i := 0];
        }
        assert packed[i + 1..] == was[i..][1..];
      }
      ClearedEntries(buf, was, packed[..], key, count);
    }

    /** The overflow list is compacted in place and cut. */
    method ClearDynamic(key: Str)
      modifies this`dynamic
      ensures dynamic == Without(old(dynamic), key)
    {
      ghost var was := dynamic;
      var n := 0;
      for i := 0 to |dynamic|
        invariant n <= i && |dynamic| == |was|
        invariant dynamic[..n] == Without(was[..i], key)
        invariant forall j | i <= j < |was| :: dynamic[j] == was[j]
      {
        var entry := dynamic[i];
        assert was[..i + 1][..i] == was[..i];
        if !EqualFold(entry.key, key) {
          dynamic := dynamic[n := entry];
          n := n + 1;
        }
      }
      assert was[..|was|] == was;
      dynamic := dynamic[..n];
    }

    /** Del removes exactly the entries that the key names. */
    method Del(key: Str)
      requires Valid()
      modifies this`dynamic, packed
      ensures Valid() && Contents() == Without(old(Contents()), key)
      ensures dynamic == Without(old(dynamic), key)
      ensures FirstMatch(Entries(buf, packed[..], 0, count), key) == None
    {
      ghost var words := Entries(buf, packed[..], 0, count);
      WithoutConcat(words, dynamic, key);
      WithoutMeans(words, key);
      ClearWords(key);
      ClearDynamic(key);
    }

    method Add(key: Str, value: Str)
      requires Valid()
      modifies this`dynamic
      ensures Valid() && Contents() == old(Contents()) + [Entry(key, value)]
    {
      dynamic := dynamic + [Entry(key, value)];
    }

    /** Set replaces every entry of the name by one at the end, which Get then finds. */
    method Set(key: Str, value: Str)
      requires Valid()
      modifies this`dynamic, packed
      ensures Valid() && Contents() == Without(old(Contents()), key) + [Entry(key, value)]
      ensures Lookup(buf, Abs(), key) == value
    {
      ghost var was := dynamic;
      Del(key);
      dynamic := dynamic + [Entry(key, value)];
      SetThenLookup(buf, Abs(), was, key, value);
    }
  }

  datatype Edit = SetEdit(key: Str, value: Str) | AddEdit(key: Str, value: Str) | DelEdit(key: Str)

  /** What an edit means for the ordered list. */
  function Edited(es: seq<Entry>, edit: Edit): seq<Entry> {
    match edit
    case SetEdit(key, value) => Without(es, key) + [Entry(key, value)]
    case AddEdit(key, value) => es + [Entry(key, value)]
    case DelEdit(key) => Without(es, key)
  }

  function EditedAll(es: seq<Entry>, edits: seq<Edit>): seq<Entry> {
    if edits == [] then es else Edited(EditedAll(es, edits[..|edits| - 1]), edits[|edits| - 1])
  }

  /** The parsed store holds what the block's lines say, and reports their first offence. */
  method ParseBlock(h: Headers, block: Str, ghost es: seq<Entry>, ghost err: Option<HeaderError>)
    requires |block| < FIELD && h.packed.Length == MAX_HEADERS && h.Abs() == Empty()
    requires es == Yields(block) && err == Reports(block)
    modifies h, h.packed
    ensures h.Valid() && h.Contents() == es && h.err == err
  {
    h.ParseHeaderBlockSWAR(block);
    ghost var lines := BlockMeans(block, h.Abs());
  }

  /** Parsing and looking up a name: the first or the last line of that name, as its place demands. */
  method ParseAndGet(h: Headers, block: Str, key: Str) returns (value: Str)
    requires |block| < FIELD && h.packed.Length == MAX_HEADERS && h.Abs() == Empty()
    modifies h, h.packed
    ensures Finds(FieldsOf(Split(block)), key, value)
  {
    h.ParseHeaderBlockSWAR(block);
    ghost var lines := GetMeans(block, h.Abs(), key);
    value := h.Get(key);
  }

  method Apply(h: Headers, edit: Edit)
    requires h.Valid()
    modifies h`dynamic, h.packed
    ensures h.Valid() && h.Contents() == Edited(old(h.Contents()), edit)
  {
    match edit {
      case SetEdit(key, value) => h.Set(key, value);
      case AddEdit(key, value) => h.Add(key, value);
      case DelEdit(key) => h.Del(key);
    }
  }

  method ApplyAll(h: Headers, edits: seq<Edit>)
    requires h.Valid()
    modifies h`dynamic, h.packed
    ensures h.Valid() && h.Contents() == EditedAll(old(h.Contents()), edits)
  {
    ghost var es := h.Contents();
    for i := 0 to |edits|
      invariant h.Valid() && h.Contents() == EditedAll(es, edits[..i])
    {
      Apply(h, edits[i]);
      assert edits[..i + 1][..i] == edits[..i];
    }
    assert edits[..|edits|] == edits;
  }

  method EditAndList(h: Headers, ghost es: seq<Entry>, edits: seq<Edit>) returns (all: seq<Entry>)
    requires h.Valid() && h.Contents() == es
    modifies h`dynamic, h.packed
    ensures h.Valid() && all == h.Contents() == EditedAll(es, edits)
  {
    ApplyAll(h, edits);
    all := h.All();
  }

  /** Any block parsed on a reset store and then edited in any way gives what the list model gives. */
  method ParseAndEdit(h: Headers, block: Str, edits: seq<Edit>) returns (all: seq<Entry>)
    requires |block| < FIELD && h.packed.Length == MAX_HEADERS && h.Abs() == Empty()
    modifies h, h.packed
    ensures h.Valid() && all == h.Contents() == EditedAll(Yields(block), edits)
    ensures h.err == Reports(block)
  {
    ghost var es, err := Yields(block), Reports(block);
    ParseBlock(h, block, es, err);
    all := EditAndList(h, es, edits);
  }
}
