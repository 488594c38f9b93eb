/**
 The packed header store: six reserved slots found by name, 48 packed entries, and a list
 for everything added later. Each packed entry is four 16-bit fields in one 64-bit word that
 point into the parsed block. The store behaves as one ordered list of entries.
 */
module HeaderStore {
  import opened Common
  import opened Swar

  type Str = seq<Byte>

  // ---- Four 16-bit fields in one word ----

  const FIELD: nat := 0x1_0000
  const WORD: nat := 0x1_0000_0000_0000_0000

  /** Bitwise or. */
  function Or(a: nat, b: nat): nat {
    if a == 0 && b == 0 then 0
    else 2 * Or(a / 2, b / 2) + if a % 2 == 1 || b % 2 == 1 then 1 else 0
  }

  function Pow2(k: nat): nat {
    if k == 0 then 1 else 2 * Pow2(k - 1)
  }

  lemma {:induction false} OrZero(a: nat)
    ensures Or(a, 0) == a
  {
    if a != 0 {
      OrZero(a / 2);
    }
  }

  /** Or of numbers without a common bit is addition. */
  lemma {:induction false} OrDisjoint(c: nat, b: nat, k: nat)
    requires b < Pow2(k)
    ensures Or(c * Pow2(k), b) == c * Pow2(k) + b
    decreases k
  {
    var a := c * Pow2(k);
    if k == 0 {
      OrZero(a);
    } else {
      var half := c * Pow2(k - 1);
      assert a == 2 * half by {
        assert Pow2(k) == 2 * Pow2(k - 1);
      }
      OrDisjoint(c, b / 2, k - 1);
      assert a / 2 == half && a % 2 == 0;
    }
  }

  datatype Fields = Fields(keyStart: nat, keyLen: nat, valStart: nat, valLen: nat)

  /** Shifts and ors on uint64. */
  function Pack(f: Fields): (p: nat)
  {
    Or(Or(Or(f.keyStart * 0x1_0000_0000_0000 % WORD, f.keyLen * 0x1_0000_0000 % WORD),
          f.valStart * FIELD % WORD), f.valLen % WORD)
  }

  /** Shifts right by 48, 32, 16 and 0 bits, each masked to 16 bits. */
  function Unpack(p: nat): Fields {
    Fields(p / FIELD / FIELD / FIELD % FIELD, p / FIELD / FIELD % FIELD, p / FIELD % FIELD, p % FIELD)
  }

  predicate Fits(f: Fields) {
    f.keyStart < FIELD && f.keyLen < FIELD && f.valStart < FIELD && f.valLen < FIELD
  }

  lemma Powers()
    ensures Pow2(16) == FIELD && Pow2(32) == 0x1_0000_0000 && Pow2(48) == 0x1_0000_0000_0000
  {
    assert Pow2(8) == 256;
    assert Pow2(12) == 16 * Pow2(8);
    assert Pow2(16) == 16 * Pow2(12);
    assert Pow2(20) == 16 * Pow2(16);
    assert Pow2(24) == 16 * Pow2(20);
    assert Pow2(28) == 16 * Pow2(24);
    assert Pow2(32) == 16 * Pow2(28);
    assert Pow2(36) == 16 * Pow2(32);
    assert Pow2(40) == 16 * Pow2(36);
    assert Pow2(44) == 16 * Pow2(40);
    assert Pow2(48) == 16 * Pow2(44);
  }

  function Sum(f: Fields): nat {
    ((f.keyStart * FIELD + f.keyLen) * FIELD + f.valStart) * FIELD + f.valLen
  }

  lemma OrFields(a: nat, b: nat, c: nat, d: nat)
    requires b < FIELD && c < FIELD && d < FIELD
    ensures Or(a * 0x1_0000_0000_0000, b * 0x1_0000_0000) == (a * FIELD + b) * 0x1_0000_0000
    ensures Or((a * FIELD + b) * 0x1_0000_0000, c * FIELD) == ((a * FIELD + b) * FIELD + c) * FIELD
    ensures Or(((a * FIELD + b) * FIELD + c) * FIELD, d) == ((a * FIELD + b) * FIELD + c) * FIELD + d
  {
    Powers();
    OrDisjoint(a, b * 0x1_0000_0000, 48);
    OrDisjoint(a * FIELD + b, c * FIELD, 32);
    OrDisjoint((a * FIELD + b) * FIELD + c, d, 16);
  }

  lemma SmallMod(x: nat)
    requires x < WORD
    ensures x % WORD == x
  {
  }

  lemma PackIsSum(f: Fields)
    requires Fits(f)
    ensures Pack(f) == Sum(f)
  {
    OrFields(f.keyStart, f.keyLen, f.valStart, f.valLen);
    SmallMod(f.keyStart * 0x1_0000_0000_0000);
    SmallMod(f.keyLen * 0x1_0000_0000);
    SmallMod(f.valStart * FIELD);
    SmallMod(f.valLen);
  }

  lemma Digit(q: nat, r: nat)
    requires r < FIELD
    ensures (q * FIELD + r) / FIELD == q && (q * FIELD + r) % FIELD == r
  {
  }

  lemma UnpackSum(f: Fields)
    requires Fits(f)
    ensures Unpack(Sum(f)) == f
  {
    Digit((f.keyStart * FIELD + f.keyLen) * FIELD + f.valStart, f.valLen);
    Digit(f.keyStart * FIELD + f.keyLen, f.valStart);
    Digit(f.keyStart, f.keyLen);
    Digit(0, f.keyStart);
  }

  /** Packing loses nothing exactly when all four fields are 16-bit numbers. */
  lemma PackUnpack(f: Fields)
    ensures Unpack(Pack(f)) == f <==> Fits(f)
  {
    var p := Pack(f);
    if Fits(f) {
      PackIsSum(f);
      UnpackSum(f);
    } else {
      UnpackFits(p);
    }
  }

  lemma UnpackFits(p: nat)
    ensures Fits(Unpack(p))
  {
  }

  /** A packed entry with a name is never the empty word. */
  lemma PackNonZero(f: Fields)
    requires Fits(f) && f.keyLen > 0
    ensures Pack(f) != 0
  {
    PackIsSum(f);
  }

  // ---- Names ----

  function Lower(b: Byte): Byte {
    if 0x41 <= b <= 0x5A then b + 0x20 else b
  }

  function Fold(s: Str): (t: Str)
    ensures |t| == |s|
  {
    seq(|s|, i requires 0 <= i < |s| => Lower(s[i]))
  }

  /** bytesconv.EqualFoldASCII. */
  predicate EqualFold(a: Str, b: Str) {
    Fold(a) == Fold(b)
  }

  const HOST: Str := [0x48, 0x6F, 0x73, 0x74]
  const ACCEPT: Str := [0x41, 0x63, 0x63, 0x65, 0x70, 0x74]
  const CONNECTION: Str := [0x43, 0x6F, 0x6E, 0x6E, 0x65, 0x63, 0x74, 0x69, 0x6F, 0x6E]
  const USER_AGENT: Str := [0x55, 0x73, 0x65, 0x72, 0x2D, 0x41, 0x67, 0x65, 0x6E, 0x74]
  const CONTENT_TYPE: Str := [0x43, 0x6F, 0x6E, 0x74, 0x65, 0x6E, 0x74, 0x2D, 0x54, 0x79, 0x70, 0x65]
  const CONTENT_LENGTH: Str := [0x43, 0x6F, 0x6E, 0x74, 0x65, 0x6E, 0x74, 0x2D, 0x4C, 0x65, 0x6E, 0x67, 0x74, 0x68]

  const IDX_HOST: nat := 0
  const IDX_CONNECTION: nat := 1
  const IDX_CONTENT_LENGTH: nat := 2
  const IDX_CONTENT_TYPE: nat := 3
  const IDX_USER_AGENT: nat := 4
  const IDX_ACCEPT: nat := 5
  const RESERVED: nat := 16
  const MAX_HEADERS: nat := 64

  /** The reserved slot of a name, if it has one. */
  function SlotOf(key: Str): (slot: Option<nat>)
    ensures slot.Some? ==> slot.value <= IDX_ACCEPT
  {
    if |key| == 4 then (if EqualFold(key, HOST) then Some(IDX_HOST) else None)
    else if |key| == 6 then (if EqualFold(key, ACCEPT) then Some(IDX_ACCEPT) else None)
    else if |key| == 10 then
      (if EqualFold(key, CONNECTION) then Some(IDX_CONNECTION)
       else if EqualFold(key, USER_AGENT) then Some(IDX_USER_AGENT) else None)
    else if |key| == 12 then (if EqualFold(key, CONTENT_TYPE) then Some(IDX_CONTENT_TYPE) else None)
    else if |key| == 14 then (if EqualFold(key, CONTENT_LENGTH) then Some(IDX_CONTENT_LENGTH) else None)
    else None
  }

  /** Names that fold alike share a slot, and the name of a slot decides its fold. */
  lemma SlotByFold(a: Str, b: Str)
    ensures EqualFold(a, b) ==> SlotOf(a) == SlotOf(b)
    ensures SlotOf(a).Some? && SlotOf(a) == SlotOf(b) ==> EqualFold(a, b)
  {
    assert |Fold(a)| == |a| && |Fold(b)| == |b|;
  }

  // ---- The store as a list ----

  datatype Entry = Entry(key: Str, value: Str)

  datatype HeaderError =
    | WhitespaceBeforeColon | DuplicateContentLength | MultipleHostHeaders
    | ObsFold | MalformedHeader | BareCR

  datatype Store = Store(packed: seq<nat>, count: nat, dynamic: seq<Entry>, err: Option<HeaderError>)

  predicate InBounds(buf: Str, p: nat) {
    var f := Unpack(p);
    f.keyStart + f.keyLen <= |buf| && f.valStart + f.valLen <= |buf|
  }

  /** getKey and getVal of a word that is not 0. */
  function EntryAt(buf: Str, p: nat): Entry
    requires InBounds(buf, p)
  {
    var f := Unpack(p);
    Entry(buf[f.keyStart..f.keyStart + f.keyLen], buf[f.valStart..f.valStart + f.valLen])
  }

  /** Words point into the buffer; named entries sit in their slot and no others do. */
  ghost predicate StoreOk(buf: Str, packed: seq<nat>, count: nat) {
    && |packed| == MAX_HEADERS
    && RESERVED <= count <= MAX_HEADERS
    && (forall i | 0 <= i < MAX_HEADERS && packed[i] != 0 ::
          InBounds(buf, packed[i]) && SlotOf(EntryAt(buf, packed[i]).key) == if i < RESERVED then Some(i) else None)
  }

  /** The entries of the words from `lo` up to `hi`, in order. */
  function Entries(buf: Str, packed: seq<nat>, lo: nat, hi: nat): seq<Entry>
    requires lo <= hi <= |packed|
    requires forall i | lo <= i < hi && packed[i] != 0 :: InBounds(buf, packed[i])
    decreases hi - lo
  {
    if lo == hi then []
    else Entries(buf, packed, lo, hi - 1) + if packed[hi - 1] != 0 then [EntryAt(buf, packed[hi - 1])] else []
  }

  /** What All() yields. */
  function View(buf: Str, h: Store): seq<Entry>
    requires StoreOk(buf, h.packed, h.count)
  {
    Entries(buf, h.packed, 0, h.count) + h.dynamic
  }

  /** The list without the entries that `key` names. */
  function Without(es: seq<Entry>, key: Str): seq<Entry> {
    if es == [] then []
    else Without(es[..|es| - 1], key) + if EqualFold(es[|es| - 1].key, key) then [] else [es[|es| - 1]]
  }

  function FirstMatch(es: seq<Entry>, key: Str): Option<Str> {
    if es == [] then None
    else if EqualFold(es[0].key, key) then Some(es[0].value)
    else FirstMatch(es[1..], key)
  }

  lemma {:induction false} WithoutConcat(a: seq<Entry>, b: seq<Entry>, key: Str)
    ensures Without(a + b, key) == Without(a, key) + Without(b, key)
    decreases |b|
  {
    if b == [] {
      assert a + b == a;
    } else {
      var b' := b[..|b| - 1];
      WithoutConcat(a, b', key);
      assert (a + b)[..|a + b| - 1] == a + b';
    }
  }

  lemma {:induction false} FirstMatchConcat(a: seq<Entry>, b: seq<Entry>, key: Str)
    ensures FirstMatch(a + b, key) == if FirstMatch(a, key).Some? then FirstMatch(a, key) else FirstMatch(b, key)
    decreases |a|
  {
    if a == [] {
      assert a + b == b;
    } else {
      FirstMatchConcat(a[1..], b, key);
      assert (a + b)[1..] == a[1..] + b;
    }
  }

  /** `at` picks, in order and once each, the entries that `key` does not name. */
  ghost predicate Picks(at: seq<nat>, es: seq<Entry>, kept: seq<Entry>, key: Str) {
    && |at| == |kept|
    && (forall k | 0 <= k < |at| :: at[k] < |es| && kept[k] == es[at[k]] && !EqualFold(kept[k].key, key))
    && (forall j, k | 0 <= j < k < |at| :: at[j] < at[k])
    && (forall i | 0 <= i < |es| && !EqualFold(es[i].key, key) :: i in at)
  }

  lemma PicksPast(at: seq<nat>, es: seq<Entry>, kept: seq<Entry>, key: Str, e: Entry)
    requires Picks(at, es, kept, key) && EqualFold(e.key, key)
    ensures Picks(at, es + [e], kept, key)
  {
    var all := es + [e];
    forall i | 0 <= i < |all| && !EqualFold(all[i].key, key)
      ensures i in at
    {
      assert i < |es| && es[i] == all[i];
    }
  }

  lemma PicksOne(at: seq<nat>, es: seq<Entry>, kept: seq<Entry>, key: Str, e: Entry)
    requires Picks(at, es, kept, key) && !EqualFold(e.key, key)
    ensures Picks(at + [|es|], es + [e], kept + [e], key)
  {
    var all, more := es + [e], at + [|es|];
    forall i | 0 <= i < |all| && !EqualFold(all[i].key, key)
      ensures i in more
    {
      if i == |es| {
        assert more[|at|] == i;
      } else {
        assert es[i] == all[i] && i in at;
      }
    }
  }

  lemma PicksMore(at: seq<nat>, es: seq<Entry>, kept: seq<Entry>, key: Str, e: Entry) returns (more: seq<nat>)
    requires Picks(at, es, kept, key)
    ensures Picks(more, es + [e], kept + if EqualFold(e.key, key) then [] else [e], key)
  {
    if EqualFold(e.key, key) {
      more := at;
      PicksPast(at, es, kept, key, e);
      assert kept + [] == kept;
    } else {
      more := at + [|es|];
      PicksOne(at, es, kept, key, e);
    }
  }

  lemma WithoutSnoc(es: seq<Entry>, e: Entry, key: Str)
    ensures Without(es + [e], key) == Without(es, key) + if EqualFold(e.key, key) then [] else [e]
  {
    assert (es + [e])[..|es|] == es;
  }

  /** Exactly the entries that `key` does not name are kept, in order, each as often as it was there. */
  lemma {:induction false} WithoutIsFilter(es: seq<Entry>, key: Str)
    ensures exists at: seq<nat> :: Picks(at, es, Without(es, key), key)
    decreases |es|
  {
    if es == [] {
      assert Picks([], es, Without(es, key), key);
    } else {
      var es', last := es[..|es| - 1], es[|es| - 1];
      WithoutIsFilter(es', key);
      var at: seq<nat> :| Picks(at, es', Without(es', key), key);
      var more := PicksMore(at, es', Without(es', key), key, last);
      WithoutSnoc(es', last, key);
      assert es == es' + [last];
    }
  }

  /** Nothing that `key` names is left, and everything else is. */
  lemma {:induction false} WithoutMeans(es: seq<Entry>, key: Str)
    ensures FirstMatch(Without(es, key), key).None?
    ensures forall e | e in es && !EqualFold(e.key, key) :: e in Without(es, key)
    decreases |es|
  {
    if es != [] {
      var es', last := es[..|es| - 1], es[|es| - 1];
      WithoutMeans(es', key);
      FirstMatchConcat(Without(es', key), if EqualFold(last.key, key) then [] else [last], key);
      assert forall e | e in es :: e in es' || e == last;
    }
  }

  lemma {:induction false} EntriesSplit(buf: Str, packed: seq<nat>, lo: nat, mid: nat, hi: nat)
    requires lo <= mid <= hi <= |packed|
    requires forall i | lo <= i < hi && packed[i] != 0 :: InBounds(buf, packed[i])
    ensures Entries(buf, packed, lo, hi) == Entries(buf, packed, lo, mid) + Entries(buf, packed, mid, hi)
    decreases hi - mid
  {
    if mid < hi {
      EntriesSplit(buf, packed, lo, mid, hi - 1);
    }
  }

  /** `q` is `p` with the entries that `key` names cleared. */
  ghost predicate Cleared(buf: Str, p: seq<nat>, q: seq<nat>, key: Str, n: nat)
    requires |p| == |q| && n <= |p|
    requires forall i | 0 <= i < |p| && p[i] != 0 :: InBounds(buf, p[i])
  {
    forall i | 0 <= i < n :: q[i] == if p[i] != 0 && EqualFold(EntryAt(buf, p[i]).key, key) then 0 else p[i]
  }

  lemma {:induction false} ClearedEntries(buf: Str, p: seq<nat>, q: seq<nat>, key: Str, n: nat)
    requires |p| == |q| && n <= |p|
    requires forall i | 0 <= i < |p| && p[i] != 0 :: InBounds(buf, p[i])
    requires Cleared(buf, p, q, key, n)
    ensures Entries(buf, q, 0, n) == Without(Entries(buf, p, 0, n), key)
    decreases n
  {
    if n > 0 {
      ClearedEntries(buf, p, q, key, n - 1);
      if p[n - 1] != 0 {
        WithoutConcat(Entries(buf, p, 0, n - 1), [EntryAt(buf, p[n - 1])], key);
        var last := EntryAt(buf, p[n - 1]);
        assert Without([last], key) == if EqualFold(last.key, key) then [] else [last];
      } else {
        assert Entries(buf, p, 0, n) == Entries(buf, p, 0, n - 1);
      }
    }
  }

  lemma ClearOne(buf: Str, p: seq<nat>, q: seq<nat>, count: nat, key: Str, i: nat)
    requires StoreOk(buf, p, count) && StoreOk(buf, q, count) && i < MAX_HEADERS && q[i] == p[i] != 0
    requires Cleared(buf, p, q, key, i) && EqualFold(EntryAt(buf, p[i]).key, key)
    ensures StoreOk(buf, q[i := 0], count) && Cleared(buf, p, q[i := 0], key, i + 1)
  {
  }
}
