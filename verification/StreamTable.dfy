/**
 The connection's stream table: 2048 open-addressed slots probed 8 deep, with 16 overflow
 maps behind them. It behaves as one finite map from stream identifiers to contexts.
 */
module StreamTable {
  import opened Int32

  const TABLE_SIZE: nat := 2048
  const MAX_PROBES: nat := 8
  const NUM_SHARDS: nat := 16

  class Context {
    const id: nat
    var window: int

    constructor (id: nat, window: int)
      ensures this.id == id && this.window == window
    {
      this.id := id;
      this.window := window;
    }
  }

  type Slots = s: seq<Context?> | |s| == TABLE_SIZE witness seq(TABLE_SIZE, _ => null)
  type Shards = s: seq<map<nat, Context>> | |s| == NUM_SHARDS witness seq(NUM_SHARDS, _ => map[])
  type Streams = map<nat, Context>

  /** The slot tried at probe `i` for `id`. */
  function Probe(id: nat, i: nat): (slot: nat)
    ensures slot < TABLE_SIZE
  {
    (id / 2 % TABLE_SIZE + i) % TABLE_SIZE
  }

  function ShardOf(id: nat): (shard: nat)
    ensures shard < NUM_SHARDS
  {
    id / 2 % NUM_SHARDS
  }

  ghost predicate Probed(id: nat, slot: nat) {
    exists i :: 0 <= i < MAX_PROBES && Probe(id, i) == slot
  }

  // ---- The representation, on values ----

  /** A taken slot holds one of the map's contexts, where lookups for its identifier search. */
  ghost predicate SlotsOk(slots: Slots, m: Streams) {
    forall j | 0 <= j < TABLE_SIZE && slots[j] != null ::
      slots[j].id in m && m[slots[j].id] == slots[j] && Probed(slots[j].id, j)
  }

  ghost predicate ShardsOk(shards: Shards, m: Streams) {
    forall h, id | 0 <= h < NUM_SHARDS && id in shards[h] ::
      h == ShardOf(id) && id in m && m[id] == shards[h][id]
  }

  ghost predicate InSlots(slots: Slots, id: nat) {
    exists j :: 0 <= j < TABLE_SIZE && slots[j] != null && slots[j].id == id
  }

  /** Each of the map's contexts is in a slot or in its shard. */
  ghost predicate AllPlaced(slots: Slots, shards: Shards, m: Streams) {
    forall id | id in m :: m[id].id == id && (InSlots(slots, id) || id in shards[ShardOf(id)])
  }

  /** No identifier lives in two places. */
  ghost predicate OnePlace(slots: Slots, shards: Shards) {
    && (forall i, j | 0 <= i < j < TABLE_SIZE && slots[i] != null && slots[j] != null :: slots[i].id != slots[j].id)
    && (forall j | 0 <= j < TABLE_SIZE && slots[j] != null :: slots[j].id !in shards[ShardOf(slots[j].id)])
  }

  ghost predicate Represents(slots: Slots, shards: Shards, m: Streams) {
    SlotsOk(slots, m) && ShardsOk(shards, m) && AllPlaced(slots, shards, m) && OnePlace(slots, shards)
  }

  function Put(m: Streams, ctx: Context): Streams {
    m[ctx.id := ctx]
  }

  lemma FillSlot(slots: Slots, shards: Shards, m: Streams, j: nat, ctx: Context)
    requires Represents(slots, shards, m) && ctx.id !in m
    requires j < TABLE_SIZE && slots[j] == null && Probed(ctx.id, j)
    ensures Represents(slots[j := ctx], shards, Put(m, ctx))
  {
    var s := slots[j := ctx];
    forall id | id in Put(m, ctx)
      ensures InSlots(s, id) || id in shards[ShardOf(id)]
    {
      if id == ctx.id {
        assert s[j].id == id;
      } else if InSlots(slots, id) {
        var i :| 0 <= i < TABLE_SIZE && slots[i] != null && slots[i].id == id;
        assert s[i] == slots[i];
      }
    }
  }

  lemma FillShard(slots: Slots, shards: Shards, m: Streams, ctx: Context)
    requires Represents(slots, shards, m) && ctx.id !in m
    ensures Represents(slots, shards[ShardOf(ctx.id) := Put(shards[ShardOf(ctx.id)], ctx)], Put(m, ctx))
  {
  }

  lemma EmptySlot(slots: Slots, shards: Shards, m: Streams, j: nat)
    requires Represents(slots, shards, m) && j < TABLE_SIZE && slots[j] != null
    ensures Represents(slots[j := null], shards, m - {slots[j].id})
  {
    var s, gone := slots[j := null], slots[j].id;
    forall id | id in m - {gone}
      ensures InSlots(s, id) || id in shards[ShardOf(id)]
    {
      if InSlots(slots, id) {
        var i :| 0 <= i < TABLE_SIZE && slots[i] != null && slots[i].id == id;
        assert s[i] == slots[i];
      }
    }
  }

  lemma OverflowEntry(slots: Slots, shards: Shards, m: Streams, h: nat, id: nat)
    requires Represents(slots, shards, m) && h < NUM_SHARDS && id in shards[h]
    ensures id in m && m[id] == shards[h][id] && m[id].id == id
  {
  }

  lemma EmptyShard(slots: Slots, shards: Shards, m: Streams, id: nat)
    requires Represents(slots, shards, m) && !InSlots(slots, id)
    ensures Represents(slots, shards[ShardOf(id) := shards[ShardOf(id)] - {id}], m - {id})
  {
  }

  // ---- The table ----

  class Table {
    const slots: array<Context?>
    const shards: array<map<nat, Context>>
    /** The map this table stands for. */
    ghost var streams: Streams

    ghost predicate Valid()
      reads this, slots, shards
    {
      && slots.Length == TABLE_SIZE
      && shards.Length == NUM_SHARDS
      && Represents(slots[..], shards[..], streams)
    }

    constructor ()
      ensures Valid() && fresh(slots) && fresh(shards) && streams == map[]
    {
      slots := new Context?[TABLE_SIZE](_ => null);
      shards := new map<nat, Context>[NUM_SHARDS](_ => map[]);
      streams := map[];
    }

    /** Lookup agrees with the map, although deletions leave holes in probe sequences. */
    method GetStream(id: nat) returns (ctx: Context?)
      requires Valid()
      ensures id in streams ==> ctx == streams[id]
      ensures id !in streams ==> ctx == null
    {
      for i := 0 to MAX_PROBES
        invariant forall p | 0 <= p < i :: slots[Probe(id, p)] == null || slots[Probe(id, p)].id != id
      {
        var c := slots[Probe(id, i)];
        if c != null && c.id == id {
          assert slots[..][Probe(id, i)] == c;
          return c;
        }
      }
      assert !InSlots(slots[..], id);
      var shard := shards[ShardOf(id)];
      return if id in shard then shard[id] else null;
    }

    method StoreStream(ctx: Context)
      requires Valid() && ctx.id !in streams
      modifies this`streams, slots, shards
      ensures Valid() && streams == old(streams)[ctx.id := ctx]
    {
      for i := 0 to MAX_PROBES
        invariant slots[..] == old(slots[..]) && shards[..] == old(shards[..]) && streams == old(streams)
      {
        var j := Probe(ctx.id, i);
        if slots[j] == null {
          assert Probed(ctx.id, j);
          FillSlot(slots[..], shards[..], streams, j, ctx);
          slots[j] := ctx;
          streams := Put(streams, ctx);
          assert slots[..] == old(slots[..])[j := ctx];
          return;
        }
      }
      var h := ShardOf(ctx.id);
      FillShard(slots[..], shards[..], streams, ctx);
      shards[h] := Put(shards[h], ctx);
      streams := Put(streams, ctx);
      assert shards[..] == old(shards[..])[h := shards[h]];
    }

    method DeleteStream(id: nat)
      requires Valid()
      modifies this`streams, slots, shards
      ensures Valid() && streams == old(streams) - {id}
    {
      for i := 0 to MAX_PROBES
        invariant slots[..] == old(slots[..]) && shards[..] == old(shards[..]) && streams == old(streams)
        invariant forall p | 0 <= p < i :: slots[Probe(id, p)] == null || slots[Probe(id, p)].id != id
      {
        var j := Probe(id, i);
        var cur := slots[j];
        if cur != null && cur.id == id {
          EmptySlot(slots[..], shards[..], streams, j);
          slots[j] := null;
          streams := streams - {id};
          assert slots[..] == old(slots[..])[j := null];
          return;
        }
      }
      assert !InSlots(slots[..], id);
      var h := ShardOf(id);
      EmptyShard(slots[..], shards[..], streams, id);
      shards[h] := shards[h] - {id};
      streams := streams - {id};
      assert shards[..] == old(shards[..])[h := shards[h]];
    }

    method EvictSlot(j: nat)
      requires Valid() && j < TABLE_SIZE && slots[j] != null
      modifies this`streams, slots
      ensures Valid() && streams == old(streams) - {old(slots[j]).id}
      ensures slots[..] == old(slots[..])[j := null]
    {
      EmptySlot(slots[..], shards[..], streams, j);
      streams := streams - {slots[j].id};
      slots[j] := null;
      assert slots[..] == old(slots[..])[j := null];
    }

    method EvictOverflow(h: nat, id: nat)
      requires Valid() && h < NUM_SHARDS && id in shards[h]
      modifies this`streams, shards
      ensures Valid() && streams == old(streams) - {id}
      ensures shards[..] == old(shards[..])[h := old(shards[h]) - {id}]
    {
      assert id in shards[..][h];
      EmptyShard(slots[..], shards[..], streams, id);
      streams := streams - {id};
      shards[h] := shards[h] - {id};
      assert shards[..] == old(shards[..])[h := shards[h]];
    }

    /** The first loop of purgeStreamsAfterID. */
    method PurgeSlots(last: nat) returns (told: seq<Context>)
      requires Valid()
      modifies this`streams, slots
      ensures Valid() && Purged(old(streams), streams, last, told)
      ensures forall j | 0 <= j < TABLE_SIZE && slots[j] != null :: slots[j].id <= last
    {
      told := [];
      for i := 0 to TABLE_SIZE
        invariant Valid() && Purged(old(streams), streams, last, told)
        invariant forall j | 0 <= j < i && slots[j] != null :: slots[j].id <= last
      {
        var ctx := slots[i];
        if ctx != null && ctx.id > last {
          assert slots[..][i] == ctx;
          PurgeOne(old(streams), streams, last, told, ctx);
          EvictSlot(i);
          told := told + [ctx];
        }
      }
    }

    /** The inner loop over one overflow map. */
    method PurgeShard(h: nat, last: nat, ghost was: Streams, told0: seq<Context>) returns (told: seq<Context>)
      requires Valid() && h < NUM_SHARDS && Purged(was, streams, last, told0)
      modifies this`streams, shards
      ensures Valid() && Purged(was, streams, last, told)
      ensures forall id | id in shards[h] :: id <= last
      ensures forall g | 0 <= g < NUM_SHARDS && g != h :: shards[g] == old(shards[g])
    {
      told := told0;
      ghost var before := shards[..];
      while exists id :: id in shards[h] && id > last
        invariant Valid() && Purged(was, streams, last, told)
        invariant shards[..] == before[h := shards[h]]
        decreases |shards[h]|
      {
        var id :| id in shards[h] && id > last;
        told := PurgeEntry(h, id, last, was, told);
      }
      assert forall g | 0 <= g < NUM_SHARDS && g != h :: shards[..][g] == before[g];
    }

    method PurgeEntry(h: nat, id: nat, last: nat, ghost was: Streams, told0: seq<Context>) returns (told: seq<Context>)
      requires Valid() && h < NUM_SHARDS && id in shards[h] && id > last && Purged(was, streams, last, told0)
      modifies this`streams, shards
      ensures Valid() && Purged(was, streams, last, told)
      ensures shards[..] == old(shards[..])[h := old(shards[h]) - {id}]
    {
      var ctx := shards[h][id];
      OverflowEntry(slots[..], shards[..], streams, h, id);
      PurgeOne(was, streams, last, told0, ctx);
      EvictOverflow(h, id);
      told := told0 + [ctx];
    }

    /**
     purgeStreamsAfterID keeps exactly the streams up to `last`. `told` lists the contexts
     it offered the error to: each purged one, once.
     */
    method PurgeStreamsAfterID(last: nat) returns (told: seq<Context>)
      requires Valid()
      modifies this`streams, slots, shards
      ensures Valid()
      ensures streams == map id | id in old(streams) && id <= last :: old(streams)[id]
      ensures forall id | id in old(streams) && id > last :: old(streams)[id] in told
      ensures forall i | 0 <= i < |told| :: told[i].id > last && told[i].id in old(streams)
      ensures forall i, j | 0 <= i < j < |told| :: told[i] != told[j]
    {
      told := PurgeSlots(last);
      for h := 0 to NUM_SHARDS
        invariant Valid() && Purged(old(streams), streams, last, told)
        invariant forall j | 0 <= j < TABLE_SIZE && slots[j] != null :: slots[j].id <= last
        invariant forall g, id | 0 <= g < h && id in shards[g] :: id <= last
      {
        told := PurgeShard(h, last, old(streams), told);
      }
      AllKept(slots[..], shards[..], streams, last);
    }

    /** Moves one stream's window that was not moved before. */
    method MoveWindow(ctx: Context, delta: int, ghost was: map<nat, int>, ghost hit: set<nat>)
      requires (forall id | id in streams :: streams[id].id == id) && Moved(streams, was, hit, delta)
      requires ctx.id in streams && streams[ctx.id] == ctx && ctx.id !in hit && ctx.window + delta <= MAX
      modifies ctx`window
      ensures Moved(streams, was, hit + {ctx.id}, delta)
    {
      ctx.window := Add(ctx.window, delta);
    }

    /** The loop of handleSettings over the slots. `hit` grows by the streams it moved. */
    method WalkSlots(delta: int, ghost was: map<nat, int>) returns (ok: bool, ghost hit: set<nat>)
      requires Valid() && Moved(streams, was, {}, delta)
      modifies Contexts(streams)
      ensures Moved(streams, was, hit, delta)
      ensures ok ==> forall id | id in streams :: id in hit <==> InSlots(slots[..], id)
      ensures !ok ==> Overflows(was, delta)
    {
      hit := {};
      for i := 0 to TABLE_SIZE
        invariant Moved(streams, was, hit, delta) && hit == IdsBefore(slots[..], i)
      {
        NextSlot(slots[..], shards[..], streams, i);
        var ctx := slots[i];
        if ctx != null {
          assert slots[..][i] == ctx;
          if ctx.window + delta > MAX {
            return false, hit;
          }
          MoveWindow(ctx, delta, was, hit);
          hit := hit + {ctx.id};
        }
      }
      ok := true;
    }

    /** The loop of handleSettings over one overflow map. */
    method WalkShard(h: nat, delta: int, ghost was: map<nat, int>, ghost hit0: set<nat>)
      returns (ok: bool, ghost hit: set<nat>)
      requires Valid() && h < NUM_SHARDS && Moved(streams, was, hit0, delta)
      requires shards[h].Keys !! hit0
      modifies Contexts(streams)
      ensures Moved(streams, was, hit, delta)
      ensures ok ==> hit == hit0 + shards[h].Keys
      ensures !ok ==> Overflows(was, delta)
    {
      hit := hit0;
      var todo := shards[h].Keys;
      while todo != {}
        invariant todo <= shards[h].Keys && hit == hit0 + (shards[h].Keys - todo)
        invariant Moved(streams, was, hit, delta)
      {
        var id :| id in todo;
        var ctx := shards[h][id];
        OverflowEntry(slots[..], shards[..], streams, h, id);
        if ctx.window + delta > MAX {
          return false, hit;
        }
        MoveWindow(ctx, delta, was, hit);
        todo, hit := todo - {id}, hit + {id};
      }
      ok := true;
    }

    /**
     The walk of handleSettings: it succeeds exactly when every window can take `delta`, and
     then it has moved every live stream's window exactly once; otherwise it has moved some,
     each once. Nothing else changes.
     */
    method WalkAll(delta: int) returns (ok: bool, ghost hit: set<nat>)
      requires Valid()
      modifies Contexts(streams)
      ensures Valid()
      ensures forall id | id in streams ::
                streams[id].window == if id in hit then Add(old(streams[id].window), delta) else old(streams[id].window)
      ensures ok ==> hit == streams.Keys
      ensures ok <==> forall id | id in streams :: old(streams[id].window) + delta <= MAX
    {
      ghost var was := map id | id in streams :: streams[id].window;
      ok, hit := WalkSlots(delta, was);
      if !ok {
        return;
      }
      ghost var inSlots := hit;
      for h := 0 to NUM_SHARDS
        invariant Moved(streams, was, hit, delta)
        invariant forall id | id in streams ::
                    id in hit <==> InSlots(slots[..], id) || ShardOf(id) < h
      {
        SplitByShard(slots[..], shards[..], streams, h);
        ghost var before := hit;
        ok, hit := WalkShard(h, delta, was, hit);
        if !ok {
          return;
        }
      }
      assert hit == streams.Keys;
    }
  }

  ghost function Contexts(m: Streams): set<Context> {
    set id | id in m :: m[id]
  }

  /** The windows in `hit` moved once by `delta`, from values that could take it; the others did not move. */
  ghost predicate Moved(m: Streams, was: map<nat, int>, hit: set<nat>, delta: int)
    reads Contexts(m)
  {
    && was.Keys == m.Keys && hit <= m.Keys
    && (forall id | id in hit :: was[id] + delta <= MAX)
    && (forall id | id in m :: m[id].window == if id in hit then Add(was[id], delta) else was[id])
  }

  predicate Overflows(was: map<nat, int>, delta: int) {
    exists id :: id in was && was[id] + delta > MAX
  }

  /** The identifiers in the first `i` slots. */
  ghost function IdsBefore(slots: Slots, i: nat): set<nat>
    requires i <= TABLE_SIZE
  {
    set j | 0 <= j < i && slots[j] != null :: slots[j].id
  }

  lemma NextSlot(slots: Slots, shards: Shards, m: Streams, i: nat)
    requires Represents(slots, shards, m) && i < TABLE_SIZE
    ensures IdsBefore(slots, i + 1) == IdsBefore(slots, i) + if slots[i] != null then {slots[i].id} else {}
    ensures slots[i] != null ==> slots[i].id !in IdsBefore(slots, i) && slots[i].id in m && m[slots[i].id] == slots[i]
  {
  }

  /** A shard holds exactly the streams hashed to it that are not in a slot. */
  lemma SplitByShard(slots: Slots, shards: Shards, m: Streams, h: nat)
    requires Represents(slots, shards, m) && h < NUM_SHARDS
    ensures forall id :: id in shards[h] <==> id in m && !InSlots(slots, id) && ShardOf(id) == h
  {
  }

  /** What is left of `was`, and who was told, part of the way through a purge. */
  ghost predicate Purged(was: Streams, m: Streams, last: nat, told: seq<Context>) {
    && (forall id | id in m :: id in was && was[id] == m[id])
    && (forall id | id in was :: was[id].id == id)
    && (forall id | id in was && id !in m :: id > last && was[id] in told)
    && (forall i | 0 <= i < |told| :: told[i].id in was && told[i].id !in m && told[i].id > last)
    && (forall i, j | 0 <= i < j < |told| :: told[i] != told[j])
  }

  lemma PurgeOne(was: Streams, m: Streams, last: nat, told: seq<Context>, ctx: Context)
    requires Purged(was, m, last, told) && ctx.id in m && m[ctx.id] == ctx && ctx.id > last
    ensures Purged(was, m - {ctx.id}, last, told + [ctx])
  {
    var t := told + [ctx];
    assert t[|told|] == ctx;
    assert forall i | 0 <= i < |told| :: t[i] == told[i] && t[i] != ctx;
  }

  lemma AllKept(slots: Slots, shards: Shards, m: Streams, last: nat)
    requires Represents(slots, shards, m)
    requires forall j | 0 <= j < TABLE_SIZE && slots[j] != null :: slots[j].id <= last
    requires forall g, id | 0 <= g < NUM_SHARDS && id in shards[g] :: id <= last
    ensures forall id | id in m :: id <= last
  {
  }
}
