/**
 The connection machine's books kept from outside: a ledger that is written from the steps of a run alone, and
 what the machine's windows, credit and table are in terms of it.
 */
module ConnLedger {
  import opened Int32
  import opened ConnMachine
  import ConnWindows

  /**
   For the connection: increments granted, bytes sent, bytes debited, and the peer's initial window. For each
   context: increments granted, bytes sent and debited, the initial window when it was loaded for the stream and
   when the stream was stored, its identifier, whether it is stored, the length of its body, and whether the writer
   gave the body up.
   */
  datatype Ledger = Ledger(
    granted: nat,
    sent: nat,
    debited: nat,
    initial: nat,
    opens: nat,
    credit: map<nat, nat>,
    sentOn: map<nat, nat>,
    debit: map<nat, nat>,
    loaded: map<nat, nat>,
    stored: map<nat, nat>,
    ids: map<nat, nat>,
    table: set<nat>,
    body: map<nat, nat>,
    abandoned: set<nat>)

  function Blank(st: Settings): Ledger {
    Ledger(0, 0, 0, st.initialWindow, 0, map[], map[], map[], map[], map[], map[], {}, map[], {})
  }

  function At(m: map<nat, nat>, k: nat): nat {
    if k in m then m[k] else 0
  }

  function More(m: map<nat, nat>, k: nat, n: nat): map<nat, nat> {
    m[k := At(m, k) + n]
  }

  /** The largest window: 2^31-1. */
  const LIMIT := 0x7FFF_FFFF

  /** The identifiers of the streams in the table that a GOAWAY with `last` keeps. */
  function Kept(l: Ledger, last: nat): set<nat> {
    set k | k in l.table && At(l.ids, k) <= last
  }

  /** `gone`: the writer's stream is closed, or its Err channel is when the writer sends on it. */
  function PostWrite(l: Ledger, w: Writer, gone: bool, s: WriteStep): Ledger {
    match s
    case OpenCheck(k, body) => l.(body := l.body[k := body])
    case OpenLoad =>
      if w.Opening? then
        l.(loaded := l.loaded[w.k := l.initial], ids := l.ids[w.k := 2 * l.opens + 1], opens := l.opens + 1)
      else l
    case OpenCommit =>
      if w.Loaded? then l.(stored := l.stored[w.k := l.initial], table := l.table + {w.k}) else l
    case Send =>
      if w.Chosen? then l.(sent := l.sent + w.chunk, sentOn := More(l.sentOn, w.k, w.chunk)) else l
    case DebitConn => if w.Sent? then l.(debited := l.debited + w.chunk) else l
    case DebitStream => if w.Debited? then l.(debit := More(l.debit, w.k, w.chunk)) else l
    case WriteError =>
      if w.Headers? || w.Chosen? then l.(table := l.table - {w.k}, abandoned := l.abandoned + {w.k}) else l
    case GiveUp => if w.Top? then l.(table := l.table - {w.k}, abandoned := l.abandoned + {w.k}) else l
    case HeadersSent => if gone && w.Headers? then l.(abandoned := l.abandoned + {w.k}) else l
    case ExpectTimeout => if gone && w.Expecting? then l.(abandoned := l.abandoned + {w.k}) else l
    case ExpectReturn => if gone && w.Returning? then l.(abandoned := l.abandoned + {w.k}) else l
    case _ => l
  }

  predicate Gone(c: Conn, s: WriteStep) {
    && Works(c.writer) && c.writer.k in c.ctxs
    && (c.ctxs[c.writer.k].state == Closed || (s.ExpectReturn? && c.ctxs[c.writer.k].errCloses > 0))
  }

  /** `serverWindow` and `window`: the windows that an increment is added to. */
  function PostRead(l: Ledger, r: Reader, serverWindow: int, window: int, s: ReadStep): Ledger {
    match s
    case ConnWindowUpdate(inc) => if serverWindow + inc <= LIMIT then l.(granted := l.granted + inc) else l
    case StreamWindowUpdate(k, inc) => if window + inc <= LIMIT then l.(credit := More(l.credit, k, inc)) else l
    case ApplySettings(st) => l.(initial := st.initialWindow)
    case FinishTail => if r.Finishing? then l.(table := l.table - {r.k}) else l
    case GoAway(last) => l.(table := Kept(l, last))
    case _ => l
  }

  function PostCall(l: Ledger, s: CallStep): Ledger {
    match s
    case CancelTail(k) => l.(table := l.table - {k})
    case _ => l
  }

  /** What a step of the run adds to the ledger. */
  function Post(l: Ledger, c: Conn, s: Step): Ledger {
    match s
    case Write(w) => PostWrite(l, c.writer, Gone(c, w), w)
    case Read(r) =>
      var window := if r.StreamWindowUpdate? && r.k in c.ctxs then c.ctxs[r.k].window else 0;
      PostRead(l, c.reader, c.serverWindow, window, r)
    case Call(o) => PostCall(l, o)
  }

  /** The ledger of a run. */
  ghost function Account(l: Ledger, c: Conn, ss: seq<Step>): Ledger
    decreases |ss|
  {
    if ss == [] || !Enabled(c, ss[0]) then l else Account(Post(l, c, ss[0]), Next(c, ss[0]), ss[1..])
  }

  // ---- The machine agrees with the ledger ----

  predicate EntryMatches(l: Ledger, k: nat, x: Ctx) {
    && x.credit == At(l.credit, k) && x.debited == At(l.debit, k)
    && x.id == At(l.ids, k) && (x.inTable <==> k in l.table)
    && (!x.counted ==> x.credit == 0 && x.debited == 0)
    && (x.counted ==> x.openedAtZero == (At(l.loaded, k) == 0) && x.missed == At(l.stored, k) - At(l.loaded, k))
  }

  ghost predicate ConnMatches(c: Conn, l: Ledger) {
    && c.connCredit == l.granted && c.connSent == l.sent && c.connDebited == l.debited
    && c.settings.initialWindow == l.initial && c.nextID == 2 * l.opens + 1
    && (c.writer.Loaded? && c.writer.k in c.ctxs ==>
          && c.writer.win == At(l.loaded, c.writer.k)
          && c.writer.win + c.ctxs[c.writer.k].missed == l.initial)
  }

  ghost predicate Balanced(c: Conn, l: Ledger) {
    && ConnMatches(c, l)
    && (forall k | k in c.ctxs :: EntryMatches(l, k, c.ctxs[k]))
    && (forall k: nat | k !in c.ctxs :: EntryMatches(l, k, FreshCtx))
  }

  /** Nothing that is on the books changes. */
  predicate SameEntry(x: Ctx, y: Ctx) {
    && y.credit == x.credit && y.debited == x.debited && y.id == x.id && y.inTable == x.inTable
    && y.counted == x.counted && y.openedAtZero == x.openedAtZero && y.missed == x.missed
  }

  ghost predicate SameBooks(c: Conn, d: Conn) {
    && d.connCredit == c.connCredit && d.connSent == c.connSent && d.connDebited == c.connDebited
    && d.settings == c.settings && d.nextID == c.nextID
    && d.ctxs.Keys == c.ctxs.Keys && (forall k | k in c.ctxs :: SameEntry(c.ctxs[k], d.ctxs[k]))
    && (d.writer.Loaded? ==> d.writer == c.writer)
  }

  lemma SameBooksKeep(c: Conn, d: Conn, l: Ledger)
    requires Balanced(c, l) && SameBooks(c, d)
    ensures Balanced(d, l)
  {
    forall k | k in d.ctxs
      ensures EntryMatches(l, k, d.ctxs[k])
    {
      assert EntryMatches(l, k, c.ctxs[k]);
    }
    forall k: nat | k !in d.ctxs
      ensures EntryMatches(l, k, FreshCtx)
    {
      assert k !in c.ctxs;
    }
  }

  /** Only the entry of `k` changes, in the ledger and in the machine. */
  ghost predicate OneEntry(c: Conn, d: Conn, l: Ledger, m: Ledger, k: nat) {
    && k in d.ctxs && d.ctxs == c.ctxs[k := d.ctxs[k]] && EntryMatches(m, k, d.ctxs[k])
    && (forall j: nat | j != k :: At(m.credit, j) == At(l.credit, j) && At(m.debit, j) == At(l.debit, j))
    && (forall j: nat | j != k :: At(m.loaded, j) == At(l.loaded, j) && At(m.stored, j) == At(l.stored, j))
    && (forall j: nat | j != k :: At(m.ids, j) == At(l.ids, j) && (j in m.table <==> j in l.table))
  }

  lemma OneEntryKeeps(c: Conn, d: Conn, l: Ledger, m: Ledger, k: nat)
    requires Balanced(c, l) && OneEntry(c, d, l, m, k) && ConnMatches(d, m)
    ensures Balanced(d, m)
  {
    forall j | j in d.ctxs
      ensures EntryMatches(m, j, d.ctxs[j])
    {
      if j != k {
        assert EntryMatches(l, j, c.ctxs[j]);
      }
    }
    forall j: nat | j !in d.ctxs
      ensures EntryMatches(m, j, FreshCtx)
    {
      assert EntryMatches(l, j, FreshCtx);
    }
  }

  lemma SubmitBooks(c: Conn, l: Ledger, k: nat)
    requires ConnWindows.Inv(c) && Balanced(c, l) && k !in c.ctxs
    ensures Balanced(c.(ctxs := c.ctxs[k := FreshCtx]), l)
  {
    var d := c.(ctxs := c.ctxs[k := FreshCtx]);
    assert EntryMatches(l, k, FreshCtx);
    OneEntryKeeps(c, d, l, l, k);
  }

  lemma LoadBooks(c: Conn, l: Ledger)
    requires ConnWindows.Inv(c) && Balanced(c, l) && c.writer.Opening?
    ensures Balanced(Identify(c), PostWrite(l, c.writer, false, OpenLoad))
  {
    var k := c.writer.k;
    assert EntryMatches(l, k, c.ctxs[k]);
    OneEntryKeeps(c, Identify(c), l, PostWrite(l, c.writer, false, OpenLoad), k);
  }

  lemma CommitBooks(c: Conn, l: Ledger)
    requires ConnWindows.Inv(c) && Balanced(c, l) && c.writer.Loaded?
    ensures Balanced(Commit(c), PostWrite(l, c.writer, false, OpenCommit))
  {
    var k := c.writer.k;
    assert EntryMatches(l, k, c.ctxs[k]);
    OneEntryKeeps(c, Commit(c), l, PostWrite(l, c.writer, false, OpenCommit), k);
  }

  lemma AbandonBooks(c: Conn, l: Ledger, m: Ledger)
    requires Balanced(c, l) && (c.writer.Headers? || c.writer.Top? || c.writer.Chosen?) && c.writer.k in c.ctxs
    requires m == l.(table := l.table - {c.writer.k}, abandoned := l.abandoned + {c.writer.k})
    ensures Balanced(Abandon(c), m)
  {
    var k := c.writer.k;
    assert EntryMatches(l, k, c.ctxs[k]);
    OneEntryKeeps(c, Abandon(c), l, m, k);
  }

  lemma SendBooks(c: Conn, l: Ledger)
    requires Balanced(c, l) && c.writer.Chosen?
    ensures Balanced(SendFrame(c), PostWrite(l, c.writer, false, Send))
  {
    var d, m := SendFrame(c), PostWrite(l, c.writer, false, Send);
    assert forall k | k in d.ctxs :: EntryMatches(l, k, c.ctxs[k]) ==> EntryMatches(m, k, d.ctxs[k]);
    assert forall k: nat :: EntryMatches(l, k, FreshCtx) ==> EntryMatches(m, k, FreshCtx);
  }

  lemma DebitConnBooks(c: Conn, l: Ledger)
    requires Balanced(c, l) && c.writer.Sent?
    ensures Balanced(TakeFromConn(c), PostWrite(l, c.writer, false, DebitConn))
  {
    var d, m := TakeFromConn(c), PostWrite(l, c.writer, false, DebitConn);
    assert forall k | k in d.ctxs :: EntryMatches(l, k, c.ctxs[k]) ==> EntryMatches(m, k, d.ctxs[k]);
    assert forall k: nat :: EntryMatches(l, k, FreshCtx) ==> EntryMatches(m, k, FreshCtx);
  }

  lemma DebitStreamBooks(c: Conn, l: Ledger)
    requires ConnWindows.Inv(c) && Balanced(c, l) && CanWrite(c, DebitStream)
    ensures Balanced(TakeFromStream(c), PostWrite(l, c.writer, false, DebitStream))
  {
    var k := c.writer.k;
    assert EntryMatches(l, k, c.ctxs[k]);
    OneEntryKeeps(c, TakeFromStream(c), l, PostWrite(l, c.writer, false, DebitStream), k);
  }

  /** Bodies are not part of the balance. */
  lemma AsideKeeps(c: Conn, l: Ledger, m: Ledger)
    requires Balanced(c, l) && m == l.(body := m.body, abandoned := m.abandoned)
    ensures Balanced(c, m)
  {
    assert forall k | k in c.ctxs :: EntryMatches(l, k, c.ctxs[k]) ==> EntryMatches(m, k, c.ctxs[k]);
    assert forall k: nat :: EntryMatches(l, k, FreshCtx) ==> EntryMatches(m, k, FreshCtx);
  }

  lemma PostMoves(l: Ledger, w: Writer, gone: bool, s: WriteStep)
    requires Moves(s)
    ensures var m := PostWrite(l, w, gone, s); m == l.(body := m.body, abandoned := m.abandoned)
  {
  }

  lemma MoveBooks(c: Conn, l: Ledger, s: WriteStep)
    requires Balanced(c, l) && CanWrite(c, s) && Moves(s)
    ensures Balanced(c.(writer := Move(c, s)), PostWrite(l, c.writer, Gone(c, s), s))
  {
    var d, m := c.(writer := Move(c, s)), PostWrite(l, c.writer, Gone(c, s), s);
    SameBooksKeep(c, d, l);
    PostMoves(l, c.writer, Gone(c, s), s);
    AsideKeeps(d, l, m);
  }

  lemma OpenBooks(c: Conn, l: Ledger, s: WriteStep, gone: bool)
    requires ConnWindows.Inv(c) && Balanced(c, l) && CanWrite(c, s)
    requires s.OpenLoad? || s.OpenCommit?
    ensures Balanced(NextWrite(c, s), PostWrite(l, c.writer, gone, s))
  {
    if s.OpenLoad? {
      LoadBooks(c, l);
    } else {
      CommitBooks(c, l);
    }
  }

  lemma FailBooks(c: Conn, l: Ledger, s: WriteStep, gone: bool)
    requires Balanced(c, l) && CanWrite(c, s) && (s.WriteError? || s.GiveUp?)
    ensures Balanced(Abandon(c), PostWrite(l, c.writer, gone, s))
  {
    AbandonBooks(c, l, PostWrite(l, c.writer, gone, s));
  }

  lemma ChunkBooks(c: Conn, l: Ledger, s: WriteStep, gone: bool)
    requires ConnWindows.Inv(c) && Balanced(c, l) && CanWrite(c, s)
    requires s.Send? || s.DebitConn? || s.DebitStream?
    ensures Balanced(NextWrite(c, s), PostWrite(l, c.writer, gone, s))
  {
    if s.Send? {
      SendBooks(c, l);
    } else if s.DebitConn? {
      DebitConnBooks(c, l);
    } else {
      DebitStreamBooks(c, l);
    }
  }

  lemma WriteBooks(c: Conn, l: Ledger, s: WriteStep)
    requires ConnWindows.Inv(c) && Balanced(c, l) && CanWrite(c, s)
    ensures Balanced(NextWrite(c, s), PostWrite(l, c.writer, Gone(c, s), s))
  {
    if Moves(s) {
      MoveBooks(c, l, s);
    } else if s.Submit? {
      SubmitBooks(c, l, s.k);
    } else if s.OpenLoad? || s.OpenCommit? {
      OpenBooks(c, l, s, Gone(c, s));
    } else if s.WriteError? || s.GiveUp? {
      FailBooks(c, l, s, Gone(c, s));
    } else {
      ChunkBooks(c, l, s, Gone(c, s));
    }
  }

  lemma GrowConnBooks(c: Conn, l: Ledger, inc: nat)
    requires Balanced(c, l) && c.serverWindow + inc <= MAX
    ensures Balanced(GrowConn(c, inc), l.(granted := l.granted + inc))
  {
    var d, m := GrowConn(c, inc), l.(granted := l.granted + inc);
    assert forall k | k in d.ctxs :: EntryMatches(l, k, c.ctxs[k]) ==> EntryMatches(m, k, d.ctxs[k]);
    assert forall k: nat :: EntryMatches(l, k, FreshCtx) ==> EntryMatches(m, k, FreshCtx);
  }

  lemma GrowStreamBooks(c: Conn, l: Ledger, k: nat, inc: nat)
    requires ConnWindows.Inv(c) && Balanced(c, l) && InTable(c, k) && c.ctxs[k].window + inc <= MAX
    ensures Balanced(GrowStream(c, k, inc), l.(credit := More(l.credit, k, inc)))
  {
    assert EntryMatches(l, k, c.ctxs[k]);
    OneEntryKeeps(c, GrowStream(c, k, inc), l, l.(credit := More(l.credit, k, inc)), k);
  }

  /** A stream that is being opened misses the change; the streams in the table do not. */
  lemma AdoptBooks(c: Conn, l: Ledger, st: Settings)
    requires ConnWindows.Inv(c) && Balanced(c, l) && ValidSettings(st)
    ensures Balanced(Adopt(c, st), l.(initial := st.initialWindow))
  {
    var d, m := Adopt(c, st), l.(initial := st.initialWindow);
    ConnWindows.DeltaIsExact(c, st);
    forall k | k in d.ctxs
      ensures EntryMatches(m, k, d.ctxs[k])
    {
      assert EntryMatches(l, k, c.ctxs[k]);
    }
    assert forall k: nat :: EntryMatches(l, k, FreshCtx) ==> EntryMatches(m, k, FreshCtx);
  }

  lemma FinishBooks(c: Conn, l: Ledger)
    requires ConnWindows.Inv(c) && Balanced(c, l) && c.reader.Finishing? && c.reader.k in c.ctxs
    ensures Balanced(EndFinish(c), l.(table := l.table - {c.reader.k}))
  {
    var k := c.reader.k;
    assert EntryMatches(l, k, c.ctxs[k]);
    OneEntryKeeps(c, EndFinish(c), l, l.(table := l.table - {k}), k);
  }

  lemma PurgeBooks(c: Conn, l: Ledger, last: nat)
    requires ConnWindows.Inv(c) && Balanced(c, l)
    ensures Balanced(Purge(c, last), l.(table := Kept(l, last)))
  {
    var d, m := Purge(c, last), l.(table := Kept(l, last));
    forall k | k in d.ctxs
      ensures EntryMatches(m, k, d.ctxs[k])
    {
      assert EntryMatches(l, k, c.ctxs[k]);
    }
    assert forall k: nat :: EntryMatches(l, k, FreshCtx) ==> EntryMatches(m, k, FreshCtx);
  }

  lemma CancelBooks(c: Conn, l: Ledger, k: nat)
    requires ConnWindows.Inv(c) && Balanced(c, l) && CanCall(c, CancelTail(k))
    ensures Balanced(EndCancel(c, k), l.(table := l.table - {k}))
  {
    var d, m := EndCancel(c, k), l.(table := l.table - {k});
    assert EntryMatches(l, k, c.ctxs[k]);
    assert d.ctxs == c.ctxs[k := d.ctxs[k]];
    OneEntryKeeps(c, d, l, m, k);
  }

  /** Steps of the read loop that are not on the books. */
  lemma OffBooks(c: Conn, s: ReadStep)
    requires CanRead(c, s)
    requires s.RejectSettings? || s.FrameError? || s.FinishSwap? || s.ReadBroadcast? || s.ReadError? || s.ReadClose?
    ensures SameBooks(c, NextRead(c, s))
  {
    if s.RejectSettings? {
      assert NextRead(c, s) == Refuse(c, s.st, s.hit);
    } else if s.FrameError? {
      assert NextRead(c, s) == MarkErred(c, s.k);
    } else if s.FinishSwap? {
      assert NextRead(c, s) == BeginFinish(c, s.k);
    } else {
      assert NextRead(c, s).ctxs == c.ctxs;
    }
  }

  lemma ConnUpdateBooks(c: Conn, l: Ledger, inc: nat)
    requires Balanced(c, l) && CanRead(c, ConnWindowUpdate(inc))
    ensures Balanced(GrowConn(c, inc), if c.serverWindow + inc <= LIMIT then l.(granted := l.granted + inc) else l)
  {
    if c.serverWindow + inc <= LIMIT {
      GrowConnBooks(c, l, inc);
    } else {
      SameBooksKeep(c, GrowConn(c, inc), l);
    }
  }

  lemma StreamUpdateBooks(c: Conn, l: Ledger, k: nat, inc: nat)
    requires ConnWindows.Inv(c) && Balanced(c, l) && CanRead(c, StreamWindowUpdate(k, inc))
    ensures Balanced(GrowStream(c, k, inc),
                     if c.ctxs[k].window + inc <= LIMIT then l.(credit := More(l.credit, k, inc)) else l)
  {
    if c.ctxs[k].window + inc <= LIMIT {
      GrowStreamBooks(c, l, k, inc);
    } else {
      SameBooksKeep(c, MarkErred(c, k), l);
    }
  }

  lemma ReadBooks(c: Conn, l: Ledger, s: ReadStep)
    requires ConnWindows.Inv(c) && Balanced(c, l) && CanRead(c, s)
    ensures Balanced(NextRead(c, s), Post(l, c, Read(s)))
  {
    if s.ConnWindowUpdate? {
      ConnUpdateBooks(c, l, s.inc);
    } else if s.StreamWindowUpdate? {
      StreamUpdateBooks(c, l, s.k, s.inc);
    } else if s.ApplySettings? {
      AdoptBooks(c, l, s.st);
    } else if s.FinishTail? {
      FinishBooks(c, l);
    } else if s.GoAway? {
      PurgeBooks(c, l, s.last);
    } else {
      OffBooks(c, s);
      SameBooksKeep(c, NextRead(c, s), l);
    }
  }

  lemma CallBooks(c: Conn, l: Ledger, s: CallStep)
    requires ConnWindows.Inv(c) && Balanced(c, l) && CanCall(c, s)
    ensures Balanced(NextCall(c, s), PostCall(l, s))
  {
    if s.CancelTail? {
      CancelBooks(c, l, s.k);
    } else if s.CancelSwap? {
      SameBooksKeep(c, BeginCancel(c, s.k), l);
    } else {
      assert NextCall(c, s).ctxs == c.ctxs && PostCall(l, s) == l;
      SameBooksKeep(c, NextCall(c, s), l);
    }
  }

  lemma StepBooks(c: Conn, l: Ledger, s: Step)
    requires ConnWindows.Inv(c) && Balanced(c, l) && Enabled(c, s)
    ensures Balanced(Next(c, s), Post(l, c, s))
  {
    match s
    case Write(w) => WriteBooks(c, l, w);
    case Read(r) => ReadBooks(c, l, r);
    case Call(o) => CallBooks(c, l, o);
  }

  lemma {:induction false} RunBooks(c: Conn, l: Ledger, ss: seq<Step>, d: Conn)
    requires ConnWindows.Inv(c) && Balanced(c, l) && Run(c, ss, d)
    ensures Balanced(d, Account(l, c, ss))
    decreases |ss|
  {
    if ss != [] {
      var e, m := Next(c, ss[0]), Post(l, c, ss[0]);
      StepBooks(c, l, ss[0]);
      ConnWindows.StepKeepsInv(c, ss[0]);
      RunBooks(e, m, ss[1..], d);
    }
  }

  // ---- What was sent and not yet debited ----

  /** The chunk of `k` that is sent and not taken off its window. */
  function Flight(w: Writer, k: nat): nat {
    if (w.Sent? || w.Debited?) && w.k == k then w.chunk else 0
  }

  ghost predicate InFlight(c: Conn, l: Ledger) {
    forall k: nat :: At(l.sentOn, k) == At(l.debit, k) + Flight(c.writer, k)
  }

  lemma SameFlight(c: Conn, d: Conn, l: Ledger, m: Ledger)
    requires InFlight(c, l) && m.sentOn == l.sentOn && m.debit == l.debit
    requires forall k: nat :: Flight(d.writer, k) == Flight(c.writer, k)
    ensures InFlight(d, m)
  {
  }

  lemma MoveFlies(c: Conn, s: WriteStep)
    requires CanWrite(c, s) && Moves(s)
    ensures forall k: nat :: Flight(c.writer, k) == 0 && Flight(Move(c, s), k) == 0
  {
  }

  lemma ActFlies(c: Conn, s: WriteStep)
    requires CanWrite(c, s) && !Moves(s) && !s.Send? && !s.DebitStream?
    ensures forall k: nat :: Flight(c.writer, k) == Flight(NextWrite(c, s).writer, k)
  {
    if s.DebitConn? {
      assert NextWrite(c, s) == TakeFromConn(c);
    } else if s.WriteError? || s.GiveUp? {
      assert NextWrite(c, s) == Abandon(c);
    } else if s.OpenLoad? {
      assert NextWrite(c, s) == Identify(c);
    } else if s.OpenCommit? {
      assert NextWrite(c, s) == Commit(c);
    }
  }

  lemma SendFlies(c: Conn, l: Ledger)
    requires InFlight(c, l) && c.writer.Chosen?
    ensures InFlight(SendFrame(c), PostWrite(l, c.writer, false, Send))
  {
  }

  lemma DebitFlies(c: Conn, l: Ledger)
    requires InFlight(c, l) && CanWrite(c, DebitStream)
    ensures InFlight(TakeFromStream(c), PostWrite(l, c.writer, false, DebitStream))
  {
  }

  lemma PostFlies(l: Ledger, w: Writer, gone: bool, s: WriteStep)
    requires !s.Send? && !s.DebitStream?
    ensures PostWrite(l, w, gone, s).sentOn == l.sentOn && PostWrite(l, w, gone, s).debit == l.debit
  {
  }

  lemma WriteInFlight(c: Conn, l: Ledger, s: WriteStep)
    requires InFlight(c, l) && CanWrite(c, s)
    ensures InFlight(NextWrite(c, s), PostWrite(l, c.writer, Gone(c, s), s))
  {
    if s.Send? {
      SendFlies(c, l);
    } else if s.DebitStream? {
      DebitFlies(c, l);
    } else {
      if Moves(s) {
        MoveFlies(c, s);
      } else {
        ActFlies(c, s);
      }
      PostFlies(l, c.writer, Gone(c, s), s);
      SameFlight(c, NextWrite(c, s), l, PostWrite(l, c.writer, Gone(c, s), s));
    }
  }

  lemma ReadFlies(c: Conn, s: ReadStep)
    requires CanRead(c, s)
    ensures forall k: nat :: Flight(NextRead(c, s).writer, k) == Flight(c.writer, k)
  {
    assert NextRead(c, s).writer == c.writer || NextRead(c, s).writer == Woken(c.writer);
  }

  lemma CallFlies(c: Conn, s: CallStep)
    requires CanCall(c, s)
    ensures forall k: nat :: Flight(NextCall(c, s).writer, k) == Flight(c.writer, k)
  {
    assert NextCall(c, s).writer == c.writer || NextCall(c, s).writer == Woken(c.writer);
  }

  lemma OnlyWritesFly(l: Ledger, r: Reader, serverWindow: int, window: int, s: ReadStep, o: CallStep)
    ensures var m := PostRead(l, r, serverWindow, window, s); m.sentOn == l.sentOn && m.debit == l.debit
    ensures PostCall(l, o).sentOn == l.sentOn && PostCall(l, o).debit == l.debit
  {
  }

  lemma StepInFlight(c: Conn, l: Ledger, s: Step, d: Conn, m: Ledger)
    requires InFlight(c, l) && Enabled(c, s) && d == Next(c, s) && m == Post(l, c, s)
    ensures InFlight(d, m)
  {
    if s.Write? {
      WriteInFlight(c, l, s.w);
    } else if s.Read? {
      var window := if s.r.StreamWindowUpdate? && s.r.k in c.ctxs then c.ctxs[s.r.k].window else 0;
      OnlyWritesFly(l, c.reader, c.serverWindow, window, s.r, CloseSwap);
      ReadFlies(c, s.r);
      SameFlight(c, d, l, m);
    } else {
      OnlyWritesFly(l, c.reader, 0, 0, ReadError, s.c);
      CallFlies(c, s.c);
      SameFlight(c, d, l, m);
    }
  }

  lemma {:induction false} RunInFlight(c: Conn, l: Ledger, ss: seq<Step>, d: Conn)
    requires InFlight(c, l) && Run(c, ss, d)
    ensures InFlight(d, Account(l, c, ss))
    decreases |ss|
  {
    if ss != [] {
      var e, m := Next(c, ss[0]), Post(l, c, ss[0]);
      StepInFlight(c, l, ss[0], e, m);
      RunInFlight(e, m, ss[1..], d);
    }
  }

  // ---- Theorems ----

  lemma BooksOf(st: Settings, ss: seq<Step>, c: Conn)
    requires ValidSettings(st) && Run(Init(st), ss, c)
    ensures Balanced(c, Account(Blank(st), Init(st), ss)) && InFlight(c, Account(Blank(st), Init(st), ss))
    ensures ConnWindows.Inv(c)
  {
    RunBooks(Init(st), Blank(st), ss, c);
    RunInFlight(Init(st), Blank(st), ss, c);
    ConnWindows.RunKeepsInv(Init(st), ss, c);
  }

  /**
   Credit safety by the steps of the run (sections 5.2 and 6.9.1 of RFC 9113): with one body writer the bytes of
   the Send steps never exceed 65535 and the accepted increments of the WINDOW_UPDATE steps, and the connection
   window is exactly what is left of these.
   */
  lemma SentWithinGrant(st: Settings, ss: seq<Step>, c: Conn, l: Ledger)
    requires ValidSettings(st) && Run(Init(st), ss, c) && l == Account(Blank(st), Init(st), ss)
    ensures l.sent <= 65535 + l.granted
    ensures c.serverWindow == 65535 + l.granted - l.debited && 0 <= c.serverWindow <= LIMIT
  {
    BooksOf(st, ss, c);
  }

  /**
   A stream's window by the steps of the run (section 6.9.2 of RFC 9113): the initial window of the last SETTINGS,
   plus the accepted increments for it, less the bytes debited, plus 65535 if the initial window was 0 when it was
   loaded, less the change of the initial window between the load and the store. What was sent on the stream is
   what was debited and what is in flight.
   */
  lemma WindowByTheBooks(st: Settings, ss: seq<Step>, c: Conn, l: Ledger, k: nat)
    requires ValidSettings(st) && Run(Init(st), ss, c) && l == Account(Blank(st), Init(st), ss)
    ensures k in l.table <==> InTable(c, k)
    ensures InTable(c, k) && !c.failed ==>
              c.ctxs[k].window
              == l.initial + At(l.credit, k) - At(l.debit, k) + (if At(l.loaded, k) == 0 then 65535 else 0)
                 - (At(l.stored, k) - At(l.loaded, k))
    ensures At(l.sentOn, k) == At(l.debit, k) + Flight(c.writer, k)
    ensures k in c.ctxs ==> c.ctxs[k].id == At(l.ids, k)
  {
    BooksOf(st, ss, c);
    if k in c.ctxs {
      assert EntryMatches(l, k, c.ctxs[k]);
      assert ConnWindows.CtxOk(c.ctxs[k], Pending(c.writer, k), c.failed, c.settings.initialWindow);
    } else {
      assert EntryMatches(l, k, FreshCtx);
    }
  }
}
