/** The store read as one ordered list: what All() yields and what Get finds. */
module HeaderLookup {
  import opened Common
  import opened Swar
  import opened HeaderStore
  import opened HeaderLines
  import opened HeaderParse
  import opened HeaderRefine

  // ---- What All() yields ----

  function Present(slots: seq<Option<Entry>>): seq<Entry> {
    if slots == [] then []
    else Present(slots[..|slots| - 1]) + if slots[|slots| - 1].Some? then [slots[|slots| - 1].value] else []
  }

  /** The named places in their order, then the other entries in theirs. */
  function Flat(l: Listed): seq<Entry> {
    Present(l.slots) + l.rest
  }

  lemma {:induction false} NamedEntries(buf: Str, packed: seq<nat>, count: nat, n: nat)
    requires StoreOk(buf, packed, count) && n <= 6
    ensures Entries(buf, packed, 0, n) == Present(Slots(buf, packed)[..n])
  {
    if n > 0 {
      NamedEntries(buf, packed, count, n - 1);
      assert Slots(buf, packed)[..n][..n - 1] == Slots(buf, packed)[..n - 1];
    }
  }

  lemma {:induction false} UnnamedEntries(buf: Str, packed: seq<nat>, count: nat, n: nat)
    requires StoreOk(buf, packed, count) && 6 <= n <= RESERVED
    ensures Entries(buf, packed, 6, n) == []
  {
    if n > 6 {
      UnnamedEntries(buf, packed, count, n - 1);
      assert packed[n - 1] == 0;
    }
  }

  lemma ReservedEntries(buf: Str, packed: seq<nat>, count: nat)
    requires StoreOk(buf, packed, count)
    ensures Entries(buf, packed, 0, RESERVED) == Present(Slots(buf, packed))
  {
    var slots := Slots(buf, packed);
    NamedEntries(buf, packed, count, 6);
    UnnamedEntries(buf, packed, count, RESERVED);
    EntriesSplit(buf, packed, 0, 6, RESERVED);
    assert slots[..6] == slots;
  }

  lemma Reassociate(a: seq<Entry>, b: seq<Entry>, c: seq<Entry>)
    ensures (a + b) + c == a + (b + c)
  {
  }

  lemma ViewIsFlat(buf: Str, h: Store)
    requires StoreOk(buf, h.packed, h.count)
    ensures View(buf, h) == Flat(ListOf(buf, h))
  {
    ReservedEntries(buf, h.packed, h.count);
    EntriesSplit(buf, h.packed, 0, RESERVED, h.count);
    Reassociate(Entries(buf, h.packed, 0, RESERVED), Entries(buf, h.packed, RESERVED, h.count), h.dynamic);
  }

  // ---- Lookup ----

  function ValueOr(o: Option<Str>): Str {
    if o.Some? then o.value else []
  }

  lemma {:induction false} NoMatch(buf: Str, packed: seq<nat>, key: Str, lo: nat, hi: nat)
    requires lo <= hi <= |packed|
    requires forall i | lo <= i < hi && packed[i] != 0 ::
               InBounds(buf, packed[i]) && !EqualFold(EntryAt(buf, packed[i]).key, key)
    ensures FirstMatch(Entries(buf, packed, lo, hi), key) == None
    decreases hi - lo
  {
    if lo < hi {
      NoMatch(buf, packed, key, lo, hi - 1);
      var es := Entries(buf, packed, lo, hi - 1);
      if packed[hi - 1] != 0 {
        FirstMatchConcat(es, [EntryAt(buf, packed[hi - 1])], key);
        assert FirstMatch([EntryAt(buf, packed[hi - 1])], key) == None;
      } else {
        assert es + [] == es;
      }
    }
  }

  lemma MatchAt(buf: Str, packed: seq<nat>, count: nat, key: Str, lo: nat, i: nat, hi: nat)
    requires StoreOk(buf, packed, count) && lo <= i < hi <= count && packed[i] != 0
    requires EqualFold(EntryAt(buf, packed[i]).key, key)
    requires forall j | lo <= j < i && packed[j] != 0 :: !EqualFold(EntryAt(buf, packed[j]).key, key)
    ensures FirstMatch(Entries(buf, packed, lo, hi), key) == Some(EntryAt(buf, packed[i]).value)
  {
    EntriesSplit(buf, packed, lo, i + 1, hi);
    NoMatch(buf, packed, key, lo, i);
    var e := EntryAt(buf, packed[i]);
    FirstMatchConcat(Entries(buf, packed, lo, i), [e], key);
    FirstMatchConcat(Entries(buf, packed, lo, i + 1), Entries(buf, packed, i + 1, hi), key);
    assert FirstMatch([e], key) == Some(e.value);
  }

  /** Only the slot of a name can match it among the reserved words, and then no later word does. */
  lemma OnlySlot(buf: Str, packed: seq<nat>, count: nat, key: Str, i: nat)
    requires StoreOk(buf, packed, count) && i < MAX_HEADERS && packed[i] != 0
    ensures EqualFold(EntryAt(buf, packed[i]).key, key) ==> SlotOf(key) == if i < RESERVED then Some(i) else None
    ensures SlotOf(key) == Some(i) && i < RESERVED ==> EqualFold(EntryAt(buf, packed[i]).key, key)
  {
    SlotByFold(EntryAt(buf, packed[i]).key, key);
  }

  /** Get: the key's own slot when its value is not empty, then the other words, then the overflow list. */
  function Lookup(buf: Str, h: Store, key: Str): Str
    requires StoreOk(buf, h.packed, h.count)
  {
    var slot := SlotOf(key);
    if slot.Some? && StoredValue(buf, h.packed[slot.value]) != [] then StoredValue(buf, h.packed[slot.value])
    else ValueOr(FirstMatch(Entries(buf, h.packed, RESERVED, h.count) + h.dynamic, key))
  }

  /** The key's slot is filled, with an empty value. */
  predicate EmptyInSlot(buf: Str, packed: seq<nat>, key: Str)
    requires |packed| == MAX_HEADERS
  {
    SlotOf(key).Some? && packed[SlotOf(key).value] != 0 && StoredValue(buf, packed[SlotOf(key).value]) == []
  }

  lemma NotReserved(buf: Str, packed: seq<nat>, count: nat, key: Str)
    requires StoreOk(buf, packed, count) && (SlotOf(key).Some? ==> packed[SlotOf(key).value] == 0)
    ensures FirstMatch(Entries(buf, packed, 0, RESERVED), key) == None
  {
    forall i | 0 <= i < RESERVED && packed[i] != 0
      ensures !EqualFold(EntryAt(buf, packed[i]).key, key)
    {
      OnlySlot(buf, packed, count, key, i);
    }
    NoMatch(buf, packed, key, 0, RESERVED);
  }

  lemma ReservedMatch(buf: Str, packed: seq<nat>, count: nat, key: Str)
    requires StoreOk(buf, packed, count) && SlotOf(key).Some? && packed[SlotOf(key).value] != 0
    ensures FirstMatch(Entries(buf, packed, 0, RESERVED), key) == Some(EntryAt(buf, packed[SlotOf(key).value]).value)
    ensures FirstMatch(Entries(buf, packed, RESERVED, count), key) == None
  {
    var slot := SlotOf(key).value;
    forall i | 0 <= i < MAX_HEADERS && packed[i] != 0
      ensures EqualFold(EntryAt(buf, packed[i]).key, key) <==> i == slot
    {
      OnlySlot(buf, packed, count, key, i);
    }
    MatchAt(buf, packed, count, key, 0, slot, RESERVED);
    NoMatch(buf, packed, key, RESERVED, count);
  }

  lemma MatchInParts(a: seq<Entry>, b: seq<Entry>, d: seq<Entry>, key: Str)
    ensures FirstMatch(b + d, key) == if FirstMatch(b, key).Some? then FirstMatch(b, key) else FirstMatch(d, key)
    ensures FirstMatch(a + b + d, key)
            == if FirstMatch(a, key).Some? then FirstMatch(a, key) else FirstMatch(b + d, key)
  {
    FirstMatchConcat(b, d, key);
    FirstMatchConcat(a, b + d, key);
    assert a + b + d == a + (b + d);
  }

  /** The first match is looked for in the reserved words, then in the rest. */
  lemma ViewMatch(buf: Str, h: Store, key: Str)
    requires StoreOk(buf, h.packed, h.count)
    ensures var named := FirstMatch(Entries(buf, h.packed, 0, RESERVED), key);
            var others := FirstMatch(Entries(buf, h.packed, RESERVED, h.count), key);
            var rest := if others.Some? then others else FirstMatch(h.dynamic, key);
            && FirstMatch(Entries(buf, h.packed, RESERVED, h.count) + h.dynamic, key) == rest
            && FirstMatch(View(buf, h), key) == if named.Some? then named else rest
  {
    EntriesSplit(buf, h.packed, 0, RESERVED, h.count);
    MatchInParts(Entries(buf, h.packed, 0, RESERVED), Entries(buf, h.packed, RESERVED, h.count), h.dynamic, key);
  }

  /** Get finds the first match of the whole list; an empty value in a reserved slot is skipped. */
  lemma LookupMeans(buf: Str, h: Store, key: Str)
    requires StoreOk(buf, h.packed, h.count)
    ensures Lookup(buf, h, key)
            == ValueOr(FirstMatch(if EmptyInSlot(buf, h.packed, key) then h.dynamic else View(buf, h), key))
  {
    ViewMatch(buf, h, key);
    if SlotOf(key).Some? && h.packed[SlotOf(key).value] != 0 {
      ReservedMatch(buf, h.packed, h.count, key);
    } else {
      NotReserved(buf, h.packed, h.count, key);
    }
  }

  /** A value just set is the one found. */
  lemma SetThenLookup(buf: Str, h: Store, es: seq<Entry>, key: Str, value: Str)
    requires StoreOk(buf, h.packed, h.count) && FirstMatch(Entries(buf, h.packed, 0, h.count), key) == None
    requires h.dynamic == Without(es, key) + [Entry(key, value)]
    ensures Lookup(buf, h, key) == value
  {
    LookupMeans(buf, h, key);
    if SlotOf(key).Some? && h.packed[SlotOf(key).value] != 0 {
      ReservedMatch(buf, h.packed, h.count, key);
      EntriesSplit(buf, h.packed, 0, RESERVED, h.count);
      FirstMatchConcat(Entries(buf, h.packed, 0, RESERVED), Entries(buf, h.packed, RESERVED, h.count), key);
      assert false;
    }
    WithoutMeans(es, key);
    FirstMatchConcat(Without(es, key), [Entry(key, value)], key);
    FirstMatchConcat(Entries(buf, h.packed, 0, h.count), h.dynamic, key);
  }
}
