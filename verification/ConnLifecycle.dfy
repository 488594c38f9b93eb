/**
 Stream identifiers, the open-stream counter and the Err channels of the connection
 machine, over every run.
 */
module ConnLifecycle {
  import opened Int32
  import opened ConnMachine
  import ConnWindows

  /** Identifiers are handed out in order, 1, 3, 5, ..., and each goes to one context. */
  ghost predicate IdOk(c: Conn) {
    && c.nextID == 2 * |c.openedIds| + 1
    && c.nextID <= MAX
    && (c.writer.Opening? ==> c.nextID < MAX)
    && (forall i | 0 <= i < |c.openedIds| :: c.openedIds[i] == 2 * i + 1)
    && (forall k | k in c.ctxs :: c.ctxs[k].id < c.nextID)
    && (forall k, j | k in c.ctxs && j in c.ctxs && k != j && c.ctxs[k].id != 0 :: c.ctxs[k].id != c.ctxs[j].id)
  }

  ghost predicate SameIds(c: Conn, d: Conn) {
    && d.nextID == c.nextID && d.openedIds == c.openedIds
    && (d.writer.Opening? ==> c.nextID < MAX)
    && d.ctxs.Keys == c.ctxs.Keys
    && forall k | k in c.ctxs :: d.ctxs[k].id == c.ctxs[k].id
  }

  lemma SameIdsKeep(c: Conn, d: Conn)
    requires IdOk(c) && SameIds(c, d)
    ensures IdOk(d)
  {
  }

  lemma WriteEffectOnIds(c: Conn, s: WriteStep)
    requires CanWrite(c, s) && !s.OpenLoad? && !s.Submit? && (c.writer.Opening? ==> c.nextID < MAX)
    ensures SameIds(c, NextWrite(c, s))
  {
    if !Moves(s) {
      match s
      case OpenCommit =>
      case WriteError =>
      case GiveUp =>
      case Send =>
      case DebitConn =>
      case DebitStream =>
    }
  }

  /** Steps of the read loop that move windows. */
  predicate MovesWindows(s: ReadStep) {
    s.ConnWindowUpdate? || s.StreamWindowUpdate? || s.ApplySettings? || s.RejectSettings?
  }

  lemma SettingsKeepIds(c: Conn, st: Settings, hit: set<nat>)
    requires c.writer.Opening? ==> c.nextID < MAX
    ensures SameIds(c, Adopt(c, st)) && SameIds(c, Refuse(c, st, hit))
  {
  }

  lemma WindowEffectOnIds(c: Conn, s: ReadStep)
    requires CanRead(c, s) && (c.writer.Opening? ==> c.nextID < MAX) && MovesWindows(s)
    ensures SameIds(c, NextRead(c, s))
  {
    match s
    case ConnWindowUpdate(_) =>
    case StreamWindowUpdate(_, _) =>
    case ApplySettings(st) => SettingsKeepIds(c, st, {});
    case RejectSettings(st, hit) => SettingsKeepIds(c, st, hit);
  }

  lemma OtherReadEffectOnIds(c: Conn, s: ReadStep)
    requires CanRead(c, s) && (c.writer.Opening? ==> c.nextID < MAX) && !MovesWindows(s)
    ensures SameIds(c, NextRead(c, s))
  {
    match s
    case FrameError(_) =>
    case FinishSwap(_) =>
    case FinishTail =>
    case ReadBroadcast =>
    case GoAway(_) =>
    case ReadError =>
    case ReadClose =>
  }

  lemma ReadEffectOnIds(c: Conn, s: ReadStep)
    requires CanRead(c, s) && (c.writer.Opening? ==> c.nextID < MAX)
    ensures SameIds(c, NextRead(c, s))
  {
    if MovesWindows(s) {
      WindowEffectOnIds(c, s);
    } else {
      OtherReadEffectOnIds(c, s);
    }
  }

  lemma CancelEffectOnIds(c: Conn, s: CallStep)
    requires CanCall(c, s) && (c.writer.Opening? ==> c.nextID < MAX) && (s.CancelSwap? || s.CancelTail?)
    ensures SameIds(c, NextCall(c, s))
  {
  }

  lemma CallEffectOnIds(c: Conn, s: CallStep)
    requires CanCall(c, s) && (c.writer.Opening? ==> c.nextID < MAX)
    ensures SameIds(c, NextCall(c, s))
  {
    if s.CancelSwap? || s.CancelTail? {
      CancelEffectOnIds(c, s);
    }
  }

  lemma IdentifyKeepsIds(c: Conn)
    requires IdOk(c) && c.writer.Opening? && c.writer.k in c.ctxs
    ensures IdOk(Identify(c))
  {
  }

  lemma WriteKeepsIds(c: Conn, s: WriteStep)
    requires IdOk(c) && CanWrite(c, s)
    ensures IdOk(NextWrite(c, s))
  {
    if s.OpenLoad? {
      IdentifyKeepsIds(c);
    } else if !s.Submit? {
      WriteEffectOnIds(c, s);
      SameIdsKeep(c, NextWrite(c, s));
    }
  }

  lemma ReadKeepsIds(c: Conn, s: ReadStep)
    requires IdOk(c) && CanRead(c, s)
    ensures IdOk(NextRead(c, s))
  {
    ReadEffectOnIds(c, s);
    SameIdsKeep(c, NextRead(c, s));
  }

  lemma CallKeepsIds(c: Conn, s: CallStep)
    requires IdOk(c) && CanCall(c, s)
    ensures IdOk(NextCall(c, s))
  {
    CallEffectOnIds(c, s);
    SameIdsKeep(c, NextCall(c, s));
  }

  /** The read loop is between its first look at the frame and the end of finish for `k`. */
  predicate InFinish(r: Reader, k: nat) {
    r == Erred(k) || r == Finishing(k, true) || r == Finishing(k, false)
  }

  /** Threads that won the state swap of `k` and have still to count the stream out. */
  function Winners(cancelling: multiset<nat>, r: Reader, k: nat): nat {
    cancelling[k] + if r == Finishing(k, true) then 1 else 0
  }

  /**
   One context. Its Err channel is closed at most once. Every closing of its state was a swap
   that won or a store by the read loop, and each was overwritten by the open or is the closed
   state it has now. Every swap that won was followed by a decrement or still has it ahead.
   `held`: writeRequest holds its mutex.
   */
  predicate LifeOk(x: Ctx, winners: nat, inFinish: bool, held: bool) {
    && x.errCloses <= 1
    && (x.inTable || inFinish || !x.counted ==> x.errCloses == 0)
    && (x.inTable || inFinish ==> x.counted)
    && (x.counted ==> x.id != 0 && !held)
    && (x.id != 0 && !x.counted ==> held)
    && x.wins + x.errs == x.lost + One(x.state == Closed)
    && x.decs + winners <= x.wins
    && (x.counted || held ==> x.decs + winners == x.wins)
    && (!x.counted ==> x.decs == 0 && x.errs == 0 && x.lost <= 1)
    && (x.id == 0 ==> x.lost == 0)
    && x.lost <= 2
  }

  ghost predicate LifeOkAt(c: Conn, k: nat)
    requires k in c.ctxs
  {
    LifeOk(c.ctxs[k], Winners(c.cancelling, c.reader, k), InFinish(c.reader, k), HoldsMutexOf(c.writer, k))
  }

  /** Threads only work on submitted contexts. */
  ghost predicate KnownOk(c: Conn) {
    forall k | InFinish(c.reader, k) || c.cancelling[k] > 0 || HoldsMutexOf(c.writer, k) :: k in c.ctxs
  }

  // ---- The counter ----

  predicate NoDup(keys: seq<nat>) {
    forall i, j | 0 <= i < j < |keys| :: keys[i] != keys[j]
  }

  predicate Known(keys: seq<nat>, ctxs: map<nat, Ctx>) {
    forall i | 0 <= i < |keys| :: keys[i] in ctxs
  }

  /** How often the streams in `keys` were counted out, together. */
  function DecSum(keys: seq<nat>, ctxs: map<nat, Ctx>): nat
    requires Known(keys, ctxs)
  {
    if keys == [] then 0 else DecSum(keys[..|keys| - 1], ctxs) + ctxs[keys[|keys| - 1]].decs
  }

  lemma {:induction false} DecSame(keys: seq<nat>, a: map<nat, Ctx>, b: map<nat, Ctx>)
    requires Known(keys, a) && Known(keys, b)
    requires forall i | 0 <= i < |keys| :: a[keys[i]].decs == b[keys[i]].decs
    ensures DecSum(keys, a) == DecSum(keys, b)
  {
    if keys != [] {
      DecSame(keys[..|keys| - 1], a, b);
    }
  }

  lemma {:induction false} DecMore(keys: seq<nat>, a: map<nat, Ctx>, k: nat, x: Ctx)
    requires NoDup(keys) && Known(keys, a) && k in keys && x.decs == a[k].decs + 1
    ensures DecSum(keys, a[k := x]) == DecSum(keys, a) + 1
  {
    var rest, last := keys[..|keys| - 1], keys[|keys| - 1];
    if last == k {
      DecSame(rest, a, a[k := x]);
    } else {
      DecMore(rest, a, k, x);
    }
  }

  lemma {:induction false} DecBound(keys: seq<nat>, a: map<nat, Ctx>)
    requires Known(keys, a) && forall i | 0 <= i < |keys| :: a[keys[i]].decs <= 3
    ensures DecSum(keys, a) <= 3 * |keys|
  {
    if keys != [] {
      DecBound(keys[..|keys| - 1], a);
    }
  }

  /** `openedKeys` lists the counted contexts, each once. */
  ghost predicate KeysOk(c: Conn) {
    && NoDup(c.openedKeys)
    && Known(c.openedKeys, c.ctxs)
    && (forall k | k in c.ctxs :: k in c.openedKeys <==> c.ctxs[k].counted)
    && |c.openedKeys| + One(c.writer.Loaded?) == |c.openedIds|
  }

  ghost predicate CountOk(c: Conn)
    requires Known(c.openedKeys, c.ctxs)
  {
    && c.openStreams == |c.openedKeys| - DecSum(c.openedKeys, c.ctxs)
    && |c.openedIds| <= MAX / 2
    && (c.writer.Opening? || c.writer.Loaded? ==> c.openStreams < c.writer.limit)
  }

  ghost predicate LifeInv(c: Conn) {
    && KnownOk(c)
    && (forall k | k in c.ctxs :: LifeOkAt(c, k))
    && KeysOk(c)
    && CountOk(c)
  }

  // ---- Steps that leave identities, states and counts alone ----

  predicate SameCtxLife(x: Ctx, y: Ctx) {
    && y.id == x.id && y.state == x.state && y.counted == x.counted && y.decs == x.decs && y.errCloses == x.errCloses
    && y.wins == x.wins && y.errs == x.errs && y.lost == x.lost
    && (y.inTable ==> x.inTable)
  }

  ghost predicate SameLife(c: Conn, d: Conn) {
    && d.ctxs.Keys == c.ctxs.Keys
    && (forall k | k in c.ctxs :: SameCtxLife(c.ctxs[k], d.ctxs[k]))
    && d.cancelling == c.cancelling && d.openStreams == c.openStreams
    && d.openedIds == c.openedIds && d.openedKeys == c.openedKeys
    && (forall k :: InFinish(d.reader, k) <==> InFinish(c.reader, k))
    && (forall k :: Winners(d.cancelling, d.reader, k) == Winners(c.cancelling, c.reader, k))
  }

  /** The writer is not opening a stream, or goes on opening the same one. */
  predicate SameOpening(c: Conn, d: Conn) {
    || d.writer == c.writer
    || !(c.writer.Opening? || c.writer.Loaded? || d.writer.Opening? || d.writer.Loaded?)
  }

  lemma SameLifeKeeps(c: Conn, d: Conn)
    requires LifeInv(c) && SameLife(c, d) && SameOpening(c, d)
    ensures LifeInv(d)
  {
    DecSame(c.openedKeys, c.ctxs, d.ctxs);
    forall k | k in d.ctxs
      ensures LifeOkAt(d, k)
    {
      assert LifeOkAt(c, k);
    }
  }

  // ---- Steps that change one context ----

  /** Only `k` changes, and only for `k` does any thread's obligation change. */
  ghost predicate OneLife(c: Conn, d: Conn, k: nat) {
    && k in d.ctxs && d.ctxs == c.ctxs[k := d.ctxs[k]]
    && LifeOkAt(d, k)
    && (forall j | j != k :: InFinish(d.reader, j) <==> InFinish(c.reader, j))
    && (forall j | j != k :: Winners(d.cancelling, d.reader, j) == Winners(c.cancelling, c.reader, j))
    && (forall j | j != k :: HoldsMutexOf(d.writer, j) <==> HoldsMutexOf(c.writer, j))
  }

  lemma OneLifeKeeps(c: Conn, d: Conn, k: nat)
    requires LifeInv(c) && OneLife(c, d, k)
    ensures forall j | j in d.ctxs :: LifeOkAt(d, j)
  {
    forall j | j in d.ctxs
      ensures LifeOkAt(d, j)
    {
      if j != k {
        assert LifeOkAt(c, j);
      }
    }
  }

  /** The counter is not touched, and neither is the list of opened streams. */
  lemma CountStays(c: Conn, d: Conn, k: nat)
    requires LifeInv(c) && OneLife(c, d, k) && k in c.ctxs
    requires d.ctxs[k].decs == c.ctxs[k].decs && d.ctxs[k].counted == c.ctxs[k].counted
    requires d.openStreams == c.openStreams && d.openedKeys == c.openedKeys && d.openedIds == c.openedIds
    requires SameOpening(c, d)
    ensures KeysOk(d) && CountOk(d)
  {
    DecSame(c.openedKeys, c.ctxs, d.ctxs);
  }

  lemma DecsBounded(c: Conn)
    requires KeysOk(c) && forall k | k in c.ctxs :: LifeOkAt(c, k)
    ensures DecSum(c.openedKeys, c.ctxs) <= 3 * |c.openedKeys|
  {
    forall i | 0 <= i < |c.openedKeys|
      ensures c.ctxs[c.openedKeys[i]].decs <= 3
    {
      assert LifeOkAt(c, c.openedKeys[i]);
    }
    DecBound(c.openedKeys, c.ctxs);
  }

  /** One stream is counted out once more; the counter does not wrap. */
  lemma CountDrops(c: Conn, d: Conn, k: nat)
    requires LifeInv(c) && OneLife(c, d, k) && k in c.ctxs && c.ctxs[k].counted
    requires d.ctxs[k].decs == c.ctxs[k].decs + 1 && d.ctxs[k].counted
    requires d.openStreams == Add(c.openStreams, -1) && d.openedKeys == c.openedKeys && d.openedIds == c.openedIds
    requires SameOpening(c, d)
    ensures KeysOk(d) && CountOk(d)
  {
    DecMore(c.openedKeys, c.ctxs, k, d.ctxs[k]);
    OneLifeKeeps(c, d, k);
    DecsBounded(d);
  }

  lemma KeysGrow(keys: seq<nat>, a: map<nat, Ctx>, k: nat, x: Ctx)
    requires NoDup(keys) && Known(keys, a) && k !in keys && x.decs == 0
    ensures NoDup(keys + [k]) && Known(keys + [k], a[k := x]) && DecSum(keys + [k], a[k := x]) == DecSum(keys, a)
  {
    assert (keys + [k])[..|keys|] == keys;
    DecSame(keys, a, a[k := x]);
  }

  /** One more stream is counted; the counter does not wrap. */
  lemma CountGrows(c: Conn, d: Conn, k: nat)
    requires KeysOk(c) && CountOk(c) && DecSum(c.openedKeys, c.ctxs) <= 3 * |c.openedKeys|
    requires k in c.ctxs && !c.ctxs[k].counted && c.writer.Loaded? && !d.writer.Opening? && !d.writer.Loaded?
    requires k in d.ctxs && d.ctxs == c.ctxs[k := d.ctxs[k]] && d.ctxs[k].counted && d.ctxs[k].decs == 0
    requires d.openStreams == Add(c.openStreams, 1) && d.openedKeys == c.openedKeys + [k] && d.openedIds == c.openedIds
    ensures KeysOk(d) && CountOk(d)
  {
    KeysGrow(c.openedKeys, c.ctxs, k, d.ctxs[k]);
  }

  lemma SubmitCounts(c: Conn, k: nat)
    requires KeysOk(c) && CountOk(c) && k !in c.ctxs
    ensures KeysOk(c.(ctxs := c.ctxs[k := FreshCtx])) && CountOk(c.(ctxs := c.ctxs[k := FreshCtx]))
  {
    DecSame(c.openedKeys, c.ctxs, c.ctxs[k := FreshCtx]);
  }

  lemma SubmitKeeps(c: Conn, k: nat)
    requires LifeInv(c) && k !in c.ctxs
    ensures LifeInv(c.(ctxs := c.ctxs[k := FreshCtx]))
  {
    OneLifeKeeps(c, c.(ctxs := c.ctxs[k := FreshCtx]), k);
    SubmitCounts(c, k);
  }

  lemma OpenCheckKeeps(c: Conn, k: nat, limit: int, body: nat)
    requires LifeInv(c) && c.writer.Free? && k in c.ctxs && c.ctxs[k].id == 0 && c.ctxs[k].state != Closed
    requires c.openStreams < limit
    ensures LifeInv(c.(writer := Opening(k, body, limit)))
  {
    var d := c.(writer := Opening(k, body, limit));
    assert LifeOkAt(c, k);
    OneLifeKeeps(c, d, k);
  }

  lemma IdentifyKeeps(c: Conn)
    requires LifeInv(c) && c.writer.Opening? && c.writer.k in c.ctxs && c.ctxs[c.writer.k].id == 0
    requires c.nextID > 0 && 2 * |c.openedIds| + 2 <= MAX
    ensures LifeInv(Identify(c))
  {
    var k, d := c.writer.k, Identify(c);
    assert LifeOkAt(c, k);
    OneLifeKeeps(c, d, k);
    DecSame(c.openedKeys, c.ctxs, d.ctxs);
  }

  lemma CommitKeeps(c: Conn)
    requires LifeInv(c) && c.writer.Loaded? && c.writer.k in c.ctxs && c.ctxs[c.writer.k].id != 0
    ensures LifeInv(Commit(c))
  {
    var k, d := c.writer.k, Commit(c);
    assert LifeOkAt(c, k);
    OneLifeKeeps(c, d, k);
    DecsBounded(c);
    CountGrows(c, d, k);
  }

  lemma AbandonKeeps(c: Conn)
    requires LifeInv(c) && (c.writer.Headers? || c.writer.Top? || c.writer.Chosen?)
    requires c.writer.k in c.ctxs && c.ctxs[c.writer.k].counted
    ensures LifeInv(Abandon(c))
  {
    var k, d := c.writer.k, Abandon(c);
    assert LifeOkAt(c, k);
    OneLifeKeeps(c, d, k);
    if c.ctxs[k].state != Closed {
      CountDrops(c, d, k);
    } else {
      CountStays(c, d, k);
    }
  }

  lemma MarkErredKeeps(c: Conn, k: nat)
    requires LifeInv(c) && c.reader.Ready? && InTable(c, k)
    ensures LifeInv(MarkErred(c, k))
  {
    var d := MarkErred(c, k);
    assert LifeOkAt(c, k);
    OneLifeKeeps(c, d, k);
    CountStays(c, d, k);
  }

  lemma BeginFinishKeeps(c: Conn, k: nat)
    requires LifeInv(c) && ((c.reader.Ready? && InTable(c, k)) || c.reader == Erred(k)) && k in c.ctxs
    ensures LifeInv(BeginFinish(c, k))
  {
    var d := BeginFinish(c, k);
    assert LifeOkAt(c, k);
    OneLifeKeeps(c, d, k);
    CountStays(c, d, k);
  }

  lemma EndFinishKeeps(c: Conn)
    requires LifeInv(c) && c.reader.Finishing? && c.reader.k in c.ctxs
    ensures LifeInv(EndFinish(c))
  {
    var k, d := c.reader.k, EndFinish(c);
    assert LifeOkAt(c, k);
    OneLifeKeeps(c, d, k);
    if c.reader.won {
      CountDrops(c, d, k);
    } else {
      CountStays(c, d, k);
    }
  }

  lemma BeginCancelKeeps(c: Conn, k: nat)
    requires LifeInv(c) && k in c.ctxs && c.ctxs[k].state != Closed
    ensures LifeInv(BeginCancel(c, k))
  {
    var d := BeginCancel(c, k);
    assert LifeOkAt(c, k);
    OneLifeKeeps(c, d, k);
    CountStays(c, d, k);
  }

  lemma EndCancelKeeps(c: Conn, k: nat)
    requires LifeInv(c) && k in c.cancelling && k in c.ctxs && c.ctxs[k].id != 0 && !HoldsMutexOf(c.writer, k)
    ensures LifeInv(EndCancel(c, k))
  {
    var d := EndCancel(c, k);
    assert LifeOkAt(c, k);
    OneLifeKeeps(c, d, k);
    CountDrops(c, d, k);
  }

  /** A cancelled request that was never opened leaves nothing to count out. */
  lemma EndIdleCancelKeeps(c: Conn, k: nat)
    requires LifeInv(c) && k in c.cancelling && k in c.ctxs && c.ctxs[k].id == 0 && !HoldsMutexOf(c.writer, k)
    ensures LifeInv(EndCancel(c, k))
  {
    var d := EndCancel(c, k);
    assert LifeOkAt(c, k);
    assert d.ctxs == c.ctxs[k := d.ctxs[k]];
    OneLifeKeeps(c, d, k);
    CountStays(c, d, k);
  }

  /** Steps that submit or open a request. */
  predicate OpenStep(s: WriteStep) {
    s.Submit? || s.OpenCheck? || s.OpenLoad? || s.OpenCommit?
  }

  /** Steps that end a request before its last byte. */
  predicate Fails(s: WriteStep) {
    s.WriteError? || s.GiveUp?
  }

  lemma OpenEffect(c: Conn, s: WriteStep)
    requires CanWrite(c, s) && OpenStep(s)
    ensures s.Submit? ==> NextWrite(c, s) == c.(ctxs := c.ctxs[s.k := FreshCtx])
    ensures s.OpenCheck? ==> NextWrite(c, s) == c.(writer := Opening(s.k, s.body, Wrap(c.settings.maxStreams)))
    ensures s.OpenLoad? ==> NextWrite(c, s) == Identify(c)
    ensures s.OpenCommit? ==> NextWrite(c, s) == Commit(c)
  {
  }

  lemma OpenKeepsLife(c: Conn, s: WriteStep)
    requires ConnWindows.WriterOk(c.writer, c.ctxs, c.serverWindow) && LifeInv(c) && CanWrite(c, s) && OpenStep(s)
    requires c.nextID > 0 && (c.writer.Opening? ==> 2 * |c.openedIds| + 2 <= MAX)
    ensures LifeInv(NextWrite(c, s))
  {
    OpenEffect(c, s);
    if s.Submit? {
      SubmitKeeps(c, s.k);
    } else if s.OpenCheck? {
      OpenCheckKeeps(c, s.k, Wrap(c.settings.maxStreams), s.body);
    } else if s.OpenLoad? {
      IdentifyKeeps(c);
    } else {
      CommitKeeps(c);
    }
  }

  lemma WriteKeepsLife(c: Conn, s: WriteStep)
    requires ConnWindows.WriterOk(c.writer, c.ctxs, c.serverWindow) && LifeInv(c) && CanWrite(c, s)
    requires c.nextID > 0 && (c.writer.Opening? ==> 2 * |c.openedIds| + 2 <= MAX)
    ensures LifeInv(NextWrite(c, s))
  {
    if OpenStep(s) {
      OpenKeepsLife(c, s);
    } else if Fails(s) {
      assert NextWrite(c, s) == Abandon(c);
      AbandonKeeps(c);
    } else {
      var d := NextWrite(c, s);
      WriteEffectOnLife(c, s);
      SameLifeKeeps(c, d);
    }
  }

  predicate FinishStep(s: ReadStep) {
    s.FrameError? || s.FinishSwap? || s.FinishTail?
  }

  lemma FinishKeepsLife(c: Conn, s: ReadStep)
    requires ConnWindows.WriterOk(c.writer, c.ctxs, c.serverWindow) && LifeInv(c) && CanRead(c, s) && FinishStep(s)
    ensures LifeInv(NextRead(c, s))
  {
    var k := if s.FinishTail? then c.reader.k else s.k;
    if s.FrameError? {
      MarkErredKeeps(c, k);
    } else if s.FinishSwap? {
      BeginFinishKeeps(c, k);
    } else {
      EndFinishKeeps(c);
    }
  }

  predicate Settled(c: Conn, s: ReadStep)
    requires CanRead(c, s)
  {
    !FinishStep(s) && !(s.StreamWindowUpdate? && c.ctxs[s.k].window + s.inc > MAX)
  }

  lemma SettingsKeepLife(c: Conn, st: Settings, hit: set<nat>)
    requires c.reader.Ready?
    ensures SameLife(c, Adopt(c, st)) && SameLife(c, Refuse(c, st, hit))
  {
  }

  lemma WindowEffectOnLife(c: Conn, s: ReadStep)
    requires CanRead(c, s) && Settled(c, s) && MovesWindows(s)
    ensures SameLife(c, NextRead(c, s)) && NextRead(c, s).writer == c.writer
  {
    match s
    case ConnWindowUpdate(_) =>
    case StreamWindowUpdate(_, _) =>
    case ApplySettings(st) => SettingsKeepLife(c, st, {});
    case RejectSettings(st, hit) => SettingsKeepLife(c, st, hit);
  }

  lemma ReadEffectOnLife(c: Conn, s: ReadStep)
    requires CanRead(c, s) && Settled(c, s)
    ensures SameLife(c, NextRead(c, s)) && SameOpening(c, NextRead(c, s))
  {
    if MovesWindows(s) {
      WindowEffectOnLife(c, s);
    } else {
      match s
      case ReadBroadcast =>
      case GoAway(_) =>
      case ReadError =>
      case ReadClose =>
    }
  }

  lemma MoveEffectOnLife(c: Conn, s: WriteStep)
    requires CanWrite(c, s) && Moves(s) && !s.OpenCheck?
    ensures var d := c.(writer := Move(c, s)); SameLife(c, d) && SameOpening(c, d)
  {
  }

  lemma WriteEffectOnLife(c: Conn, s: WriteStep)
    requires CanWrite(c, s) && !OpenStep(s) && !Fails(s)
    ensures SameLife(c, NextWrite(c, s)) && SameOpening(c, NextWrite(c, s))
  {
    if Moves(s) {
      MoveEffectOnLife(c, s);
    }
  }

  lemma ReadKeepsLife(c: Conn, s: ReadStep)
    requires ConnWindows.WriterOk(c.writer, c.ctxs, c.serverWindow) && LifeInv(c) && CanRead(c, s)
    ensures LifeInv(NextRead(c, s))
  {
    if FinishStep(s) {
      FinishKeepsLife(c, s);
    } else if s.StreamWindowUpdate? && c.ctxs[s.k].window + s.inc > MAX {
      MarkErredKeeps(c, s.k);
    } else {
      ReadEffectOnLife(c, s);
      SameLifeKeeps(c, NextRead(c, s));
    }
  }

  lemma CallKeepsLife(c: Conn, s: CallStep)
    requires LifeInv(c) && CanCall(c, s)
    ensures LifeInv(NextCall(c, s))
  {
    match s
    case CancelSwap(k) => BeginCancelKeeps(c, k);
    case CancelTail(k) =>
      if c.ctxs[k].id == 0 {
        EndIdleCancelKeeps(c, k);
      } else {
        EndCancelKeeps(c, k);
      }
    case CancelBroadcast => SameLifeKeeps(c, NextCall(c, s));
    case CloseSwap => SameLifeKeeps(c, NextCall(c, s));
    case CloseBroadcast => SameLifeKeeps(c, NextCall(c, s));
    case TellLook(_) => SameLifeKeeps(c, NextCall(c, s));
    case TellSend(_) => SameLifeKeeps(c, NextCall(c, s));
  }

  lemma StepKeepsLife(c: Conn, s: Step)
    requires ConnWindows.Inv(c) && IdOk(c) && LifeInv(c) && Enabled(c, s)
    ensures IdOk(Next(c, s)) && LifeInv(Next(c, s))
  {
    match s
    case Write(w) =>
      WriteKeepsIds(c, w);
      WriteKeepsLife(c, w);
    case Read(r) =>
      ReadKeepsIds(c, r);
      ReadKeepsLife(c, r);
    case Call(o) =>
      CallKeepsIds(c, o);
      CallKeepsLife(c, o);
  }

  lemma {:induction false} RunKeepsLife(c: Conn, ss: seq<Step>, d: Conn)
    requires ConnWindows.Inv(c) && IdOk(c) && LifeInv(c) && Run(c, ss, d)
    ensures IdOk(d) && LifeInv(d)
    decreases |ss|
  {
    if ss != [] {
      ConnWindows.StepKeepsInv(c, ss[0]);
      StepKeepsLife(c, ss[0]);
      RunKeepsLife(Next(c, ss[0]), ss[1..], d);
    }
  }

  lemma ReachableLife(st: Settings, c: Conn)
    requires Reachable(st, c)
    ensures IdOk(c) && LifeInv(c)
  {
    var ss :| Run(Init(st), ss, c);
    RunKeepsLife(Init(st), ss, c);
  }

  lemma ReachableIds(st: Settings, c: Conn)
    requires Reachable(st, c)
    ensures IdOk(c)
  {
    ReachableLife(st, c);
  }

  // ---- Theorems ----

  lemma IdsMean(c: Conn)
    requires IdOk(c)
    ensures forall i | 0 <= i < |c.openedIds| :: c.openedIds[i] % 2 == 1 && c.openedIds[i] < MAX
    ensures forall i, j | 0 <= i < j < |c.openedIds| :: c.openedIds[i] < c.openedIds[j]
  {
  }

  /**
   Section 5.1.1 of RFC 9113: the identifiers handed out are odd, strictly increasing, below
   2^31-1, and no two contexts share one.
   */
  lemma IdsAreFreshAndOdd(st: Settings, c: Conn)
    requires Reachable(st, c)
    ensures forall i | 0 <= i < |c.openedIds| :: c.openedIds[i] % 2 == 1 && c.openedIds[i] < MAX
    ensures forall i, j | 0 <= i < j < |c.openedIds| :: c.openedIds[i] < c.openedIds[j]
    ensures forall k, j | k in c.ctxs && j in c.ctxs && k != j && c.ctxs[k].id != 0 :: c.ctxs[k].id != c.ctxs[j].id
  {
    ReachableIds(st, c);
    IdsMean(c);
  }

  /** No run closes a stream's Err channel twice. */
  lemma ErrClosedAtMostOnce(st: Settings, c: Conn, k: nat)
    requires Reachable(st, c) && k in c.ctxs
    ensures c.ctxs[k].errCloses <= 1
  {
    ReachableLife(st, c);
    assert LifeOkAt(c, k);
  }

  /**
   How often one stream is counted out, whatever happened to others: the decrements done and
   still owed are at most one if the state is closed and none if it is not, plus one for every
   closed state that the open overwrote, of which there are at most two. A stream whose open
   overwrote nothing is counted out once at most. What is missing from the bound, once a stream
   is opened, is exactly the closings that were stores because of an error.
   */
  lemma CountedOutAtMostOnce(st: Settings, c: Conn, k: nat)
    requires Reachable(st, c) && k in c.ctxs
    ensures var x, owed := c.ctxs[k], Winners(c.cancelling, c.reader, k);
            && x.decs + owed <= x.lost + (if x.state == Closed then 1 else 0)
            && x.lost <= 2
            && (x.lost == 0 ==> x.decs <= 1)
            && (x.counted ==> x.decs + owed + x.errs == x.lost + (if x.state == Closed then 1 else 0))
  {
    ReachableLife(st, c);
    assert LifeOkAt(c, k);
  }

  // ---- What the counter counts ----

  /** Opened streams whose state is not closed. */
  function NotClosed(ctxs: map<nat, Ctx>): set<nat> {
    set k | k in ctxs && ctxs[k].counted && ctxs[k].state != Closed
  }

  /** The opened streams that are not closed, decrements owed, closings by an error, and overwritten closed states. */
  datatype Tally = Tally(notClosed: nat, owed: nat, erred: nat, lost: nat)

  /** The sums of these over the contexts in `keys`. */
  function TallyOf(keys: seq<nat>, c: Conn): Tally
    requires Known(keys, c.ctxs)
  {
    if keys == [] then Tally(0, 0, 0, 0)
    else
      var k := keys[|keys| - 1];
      var t, x := TallyOf(keys[..|keys| - 1], c), c.ctxs[k];
      Tally(t.notClosed + One(x.state != Closed), t.owed + Winners(c.cancelling, c.reader, k),
            t.erred + x.errs, t.lost + x.lost)
  }

  lemma {:induction false} TallyAddsUp(keys: seq<nat>, c: Conn)
    requires Known(keys, c.ctxs)
    requires forall i | 0 <= i < |keys| :: LifeOkAt(c, keys[i]) && c.ctxs[keys[i]].counted
    ensures var t := TallyOf(keys, c);
            |keys| - DecSum(keys, c.ctxs) == t.notClosed + t.owed + t.erred - t.lost
  {
    if keys != [] {
      TallyAddsUp(keys[..|keys| - 1], c);
      assert LifeOkAt(c, keys[|keys| - 1]);
    }
  }

  function OpenAmong(keys: seq<nat>, ctxs: map<nat, Ctx>): set<nat>
    requires Known(keys, ctxs)
  {
    if keys == [] then {}
    else
      var k := keys[|keys| - 1];
      OpenAmong(keys[..|keys| - 1], ctxs) + if ctxs[k].state != Closed then {k} else {}
  }

  lemma {:induction false} OpenMeans(keys: seq<nat>, ctxs: map<nat, Ctx>)
    requires Known(keys, ctxs)
    ensures forall k :: k in OpenAmong(keys, ctxs) <==> k in keys && ctxs[k].state != Closed
  {
    if keys != [] {
      OpenMeans(keys[..|keys| - 1], ctxs);
      assert keys == keys[..|keys| - 1] + [keys[|keys| - 1]];
    }
  }

  lemma {:induction false} TallyOpen(keys: seq<nat>, c: Conn)
    requires Known(keys, c.ctxs) && NoDup(keys)
    ensures TallyOf(keys, c).notClosed == |OpenAmong(keys, c.ctxs)|
  {
    if keys != [] {
      TallyOpen(keys[..|keys| - 1], c);
      OpenMeans(keys[..|keys| - 1], c.ctxs);
    }
  }

  lemma OpenIsNotClosed(c: Conn)
    requires KeysOk(c)
    ensures OpenAmong(c.openedKeys, c.ctxs) == NotClosed(c.ctxs)
  {
    OpenMeans(c.openedKeys, c.ctxs);
  }

  /**
   What openStreams counts, in every reachable state: the opened streams that are not closed,
   plus the threads that won the swap of an opened stream and have still to count it out, plus the
   streams that ended in an error, less the closed states that an open overwrote. So it is at
   least the number of streams that are not closed less the overwritten states, and exact when the
   rest cancels out.
   */
  lemma CounterIsExact(st: Settings, c: Conn)
    requires Reachable(st, c)
    ensures Known(c.openedKeys, c.ctxs)
    ensures forall k | k in c.ctxs :: k in c.openedKeys <==> c.ctxs[k].counted
    ensures var t := TallyOf(c.openedKeys, c);
            c.openStreams == |NotClosed(c.ctxs)| + t.owed + t.erred - t.lost
  {
    ReachableLife(st, c);
    forall i | 0 <= i < |c.openedKeys|
      ensures LifeOkAt(c, c.openedKeys[i]) && c.ctxs[c.openedKeys[i]].counted
    {
      assert c.openedKeys[i] in c.ctxs;
    }
    TallyAddsUp(c.openedKeys, c);
    TallyOpen(c.openedKeys, c);
    OpenIsNotClosed(c);
  }

  /**
   Section 5.1.2 of RFC 9113: opening a stream leaves the counter within the limit that
   CanOpenStream saw, in every run. The streams that are then not closed exceed the limit by no
   more than the closed states that opens overwrote.
   */
  lemma LimitHeldAtOpen(st: Settings, c: Conn)
    requires Reachable(st, c) && c.writer.Loaded? && c.writer.k in c.ctxs
    ensures Commit(c).openStreams <= c.writer.limit
    ensures Known(Commit(c).openedKeys, Commit(c).ctxs)
    ensures |NotClosed(Commit(c).ctxs)| <= c.writer.limit + TallyOf(Commit(c).openedKeys, Commit(c)).lost
  {
    var d := Commit(c);
    StepReachable(st, c, Write(OpenCommit));
    assert d == Next(c, Write(OpenCommit));
    CounterIsExact(st, d);
    ReachableLife(st, c);
    DecsBounded(c);
  }

  // ---- Cancellations during the open ----

  /** A cancellation whose swap lands before writeRequest stores the open state. */
  lemma RacePath(c: Conn) returns (c1: Conn, c2: Conn, c3: Conn)
    requires c.writer.Opening? && c.writer.k in c.ctxs && c.ctxs[c.writer.k].state != Closed
    ensures CanCall(c, CancelSwap(c.writer.k)) && c1 == NextCall(c, CancelSwap(c.writer.k))
    ensures CanWrite(c1, OpenLoad) && c2 == NextWrite(c1, OpenLoad)
    ensures CanWrite(c2, OpenCommit) && c3 == NextWrite(c2, OpenCommit)
    ensures c3.writer == Headers(c.writer.k, c.writer.left) && c3.cancelling == c.cancelling + multiset{c.writer.k}
    ensures c.writer.k in c3.ctxs && c3.ctxs[c.writer.k].id == c.nextID && c3.ctxs[c.writer.k].state != Closed
    ensures c3.ctxs[c.writer.k].decs == c.ctxs[c.writer.k].decs && c3.closed == c.closed && c3.failed == c.failed
  {
    c1 := BeginCancel(c, c.writer.k);
    c2 := Identify(c1);
    c3 := Commit(c2);
  }

  /** The cancellation's tail and a second cancellation then both count the stream out, and the connection goes on. */
  lemma BothCountOut(c: Conn) returns (c1: Conn, c2: Conn, d: Conn)
    requires c.writer.Headers? && c.writer.k in c.ctxs && c.writer.k in c.cancelling
    requires c.ctxs[c.writer.k].id != 0 && c.ctxs[c.writer.k].state != Closed
    ensures CanCall(c, CancelTail(c.writer.k)) && c1 == NextCall(c, CancelTail(c.writer.k))
    ensures CanCall(c1, CancelSwap(c.writer.k)) && c2 == NextCall(c1, CancelSwap(c.writer.k))
    ensures CanCall(c2, CancelTail(c.writer.k)) && d == NextCall(c2, CancelTail(c.writer.k))
    ensures c.writer.k in d.ctxs && d.ctxs[c.writer.k].decs == c.ctxs[c.writer.k].decs + 2
    ensures d.writer == c.writer && d.reader == c.reader && d.closed == c.closed && d.failed == c.failed
  {
    c1 := EndCancel(c, c.writer.k);
    c2 := BeginCancel(c1, c.writer.k);
    d := EndCancel(c2, c.writer.k);
  }

  /**
   The condition above is exact: whenever a stream is being opened, a cancellation that
   lands at that moment can go on to count it out twice, because writeRequest then stores
   the open state over the closed one.
   */
  lemma RaceCountsOutTwice(st: Settings, c: Conn)
    requires Reachable(st, c) && c.writer.Opening? && c.writer.k in c.ctxs && c.ctxs[c.writer.k].state != Closed
    ensures exists d :: && Reachable(st, d) && d.closed == c.closed && d.failed == c.failed
                        && c.writer.k in d.ctxs && d.ctxs[c.writer.k].decs == 2
  {
    var k := c.writer.k;
    ReachableLife(st, c);
    assert LifeOkAt(c, k);
    var c1, c2, c3 := RacePath(c);
    StepReachable(st, c, Call(CancelSwap(k)));
    StepReachable(st, c1, Write(OpenLoad));
    StepReachable(st, c2, Write(OpenCommit));
    var c4, c5, d := BothCountOut(c3);
    StepReachable(st, c3, Call(CancelTail(k)));
    StepReachable(st, c4, Call(CancelSwap(k)));
    StepReachable(st, c5, Call(CancelTail(k)));
  }

  /** For a request without a body a second cancellation can land before the half-closed state is stored. */
  lemma SecondRacePath(c: Conn) returns (c1: Conn, c2: Conn, c3: Conn, c4: Conn, c5: Conn)
    requires c.writer.Opening? && c.writer.left == 0 && c.nextID > 0
    requires c.writer.k in c.ctxs && c.ctxs[c.writer.k].state != Closed
    ensures CanCall(c, CancelSwap(c.writer.k)) && c1 == NextCall(c, CancelSwap(c.writer.k))
    ensures CanWrite(c1, OpenLoad) && c2 == NextWrite(c1, OpenLoad)
    ensures CanCall(c2, CancelSwap(c.writer.k)) && c3 == NextCall(c2, CancelSwap(c.writer.k))
    ensures CanWrite(c3, OpenCommit) && c4 == NextWrite(c3, OpenCommit)
    ensures CanCall(c4, CancelTail(c.writer.k)) && c5 == NextCall(c4, CancelTail(c.writer.k))
    ensures c5.writer == Headers(c.writer.k, 0) && c.writer.k in c5.cancelling
    ensures c.writer.k in c5.ctxs && c5.ctxs[c.writer.k].id != 0 && c5.ctxs[c.writer.k].state != Closed
    ensures c5.ctxs[c.writer.k].decs == c.ctxs[c.writer.k].decs + 1 && c5.closed == c.closed && c5.failed == c.failed
  {
    c1 := BeginCancel(c, c.writer.k);
    c2 := Identify(c1);
    c3 := BeginCancel(c2, c.writer.k);
    c4 := Commit(c3);
    c5 := EndCancel(c4, c.writer.k);
  }

  lemma SecondRaceReachable(st: Settings, c: Conn) returns (d: Conn)
    requires Reachable(st, c) && c.writer.Opening? && c.writer.left == 0 && c.nextID > 0
    requires c.writer.k in c.ctxs && c.ctxs[c.writer.k].state != Closed
    ensures Reachable(st, d) && d.writer == Headers(c.writer.k, 0) && c.writer.k in d.cancelling
    ensures c.writer.k in d.ctxs && d.ctxs[c.writer.k].id != 0 && d.ctxs[c.writer.k].state != Closed
    ensures d.ctxs[c.writer.k].decs == c.ctxs[c.writer.k].decs + 1 && d.closed == c.closed && d.failed == c.failed
  {
    var k := c.writer.k;
    var c1, c2, c3, c4, c5 := SecondRacePath(c);
    StepReachable(st, c, Call(CancelSwap(k)));
    StepReachable(st, c1, Write(OpenLoad));
    StepReachable(st, c2, Call(CancelSwap(k)));
    StepReachable(st, c3, Write(OpenCommit));
    StepReachable(st, c4, Call(CancelTail(k)));
    d := c5;
  }

  /** The bound of two overwritten states is reached: such a request can be counted out three times. */
  lemma RaceCountsOutThrice(st: Settings, c: Conn)
    requires Reachable(st, c) && c.writer.Opening? && c.writer.left == 0
    requires c.writer.k in c.ctxs && c.ctxs[c.writer.k].state != Closed
    ensures exists d :: && Reachable(st, d) && d.closed == c.closed && d.failed == c.failed
                        && c.writer.k in d.ctxs && d.ctxs[c.writer.k].decs == 3
  {
    var k := c.writer.k;
    ReachableLife(st, c);
    assert LifeOkAt(c, k);
    var c5 := SecondRaceReachable(st, c);
    var c6, c7, d := BothCountOut(c5);
    StepReachable(st, c5, Call(CancelTail(k)));
    StepReachable(st, c6, Call(CancelSwap(k)));
    StepReachable(st, c7, Call(CancelTail(k)));
  }

  // ---- Streams that end in an error ----

  /** An opened stream stays opened, and its history only grows. */
  predicate Older(x: Ctx, y: Ctx) {
    y.counted && y.errs >= x.errs && y.lost == x.lost
  }

  lemma WriteKeepsHistory(c: Conn, s: WriteStep, k: nat)
    requires ConnWindows.WriterOk(c.writer, c.ctxs, c.serverWindow) && CanWrite(c, s)
    requires k in c.ctxs && c.ctxs[k].counted
    ensures k in NextWrite(c, s).ctxs && Older(c.ctxs[k], NextWrite(c, s).ctxs[k])
  {
    if !OpenStep(s) && !Fails(s) {
      WriteEffectOnLife(c, s);
    }
  }

  lemma ReadKeepsHistory(c: Conn, s: ReadStep, k: nat)
    requires CanRead(c, s) && k in c.ctxs && c.ctxs[k].counted
    ensures k in NextRead(c, s).ctxs && Older(c.ctxs[k], NextRead(c, s).ctxs[k])
  {
    if Settled(c, s) {
      ReadEffectOnLife(c, s);
    }
  }

  lemma CallKeepsHistory(c: Conn, s: CallStep, k: nat)
    requires CanCall(c, s) && k in c.ctxs && c.ctxs[k].counted
    ensures k in NextCall(c, s).ctxs && Older(c.ctxs[k], NextCall(c, s).ctxs[k])
  {
    if s.CancelTail? {
      assert NextCall(c, s) == EndCancel(c, s.k);
    } else if s.CancelSwap? {
      assert NextCall(c, s) == BeginCancel(c, s.k);
    } else {
      assert NextCall(c, s).ctxs == c.ctxs;
    }
  }

  lemma StepKeepsHistory(c: Conn, s: Step, k: nat)
    requires ConnWindows.WriterOk(c.writer, c.ctxs, c.serverWindow) && Enabled(c, s) && k in c.ctxs && c.ctxs[k].counted
    ensures k in Next(c, s).ctxs && Older(c.ctxs[k], Next(c, s).ctxs[k])
  {
    match s
    case Write(w) => WriteKeepsHistory(c, w, k);
    case Read(r) => ReadKeepsHistory(c, r, k);
    case Call(o) => CallKeepsHistory(c, o, k);
  }

  lemma {:induction false} RunKeepsHistory(c: Conn, ss: seq<Step>, d: Conn, k: nat)
    requires ConnWindows.Inv(c) && IdOk(c) && LifeInv(c) && Run(c, ss, d) && k in c.ctxs && c.ctxs[k].counted
    ensures k in d.ctxs && Older(c.ctxs[k], d.ctxs[k])
    decreases |ss|
  {
    if ss != [] {
      StepKeepsHistory(c, ss[0], k);
      ConnWindows.StepKeepsInv(c, ss[0]);
      StepKeepsLife(c, ss[0]);
      RunKeepsHistory(Next(c, ss[0]), ss[1..], d, k);
    }
  }

  /**
   Why the counter is only an upper bound: a stream whose closed state the read loop stored
   because of an error, and whose open overwrote nothing, is never counted out: not when finish
   runs, not by a later cancellation, not in any continuation of the run.
   */
  lemma StreamErrorIsNeverCountedOut(st: Settings, c: Conn, k: nat, ss: seq<Step>, d: Conn)
    requires Reachable(st, c) && k in c.ctxs && c.ctxs[k].counted && c.ctxs[k].errs > 0 && c.ctxs[k].lost == 0
    requires Run(c, ss, d)
    ensures k in d.ctxs && d.ctxs[k].decs == 0 && Winners(d.cancelling, d.reader, k) == 0 && d.ctxs[k].state == Closed
  {
    ConnWindows.ReachableInv(st, c);
    ReachableLife(st, c);
    RunKeepsHistory(c, ss, d, k);
    ConnWindows.RunKeepsInv(c, ss, d);
    RunKeepsLife(c, ss, d);
    assert LifeOkAt(d, k);
  }
}
