/**
 Send-window safety of the connection machine, over every run: windows are conserved
 and never wrap, and the connection never sends beyond its credit.
 */
module ConnWindows {
  import opened Int32
  import opened ConnMachine

  function Bias(x: Ctx): int {
    if x.openedAtZero then 65535 else 0
  }

  /** What an opened stream's window adds up to, over unbounded integers. */
  function Sum(x: Ctx): int {
    x.base + Bias(x) + x.credit - x.debited
  }

  /**
   One context's window is the sum of its parts and stays off the int32 limits. `pending`
   is what the writer chose and has not debited.
   */
  ghost predicate CtxOk(x: Ctx, pending: nat, failed: bool, initialWindow: nat) {
    && (x.inTable ==> x.counted)
    && (x.inTable && !failed ==>
          && x.base + x.missed == initialWindow
          && x.window - pending >= initialWindow - MAX)
    && (x.counted ==>
          && x.id != 0
          && x.window == Sum(x)
          && x.window <= MAX
          && x.window - pending >= -MAX)
  }

  ghost predicate CtxsOk(c: Conn) {
    forall k | k in c.ctxs :: CtxOk(c.ctxs[k], Pending(c.writer, k), c.failed, c.settings.initialWindow)
  }

  /** The writer works on an opened stream, and what it chose is still covered. */
  ghost predicate WriterOk(w: Writer, ctxs: map<nat, Ctx>, serverWindow: int) {
    && (Works(w) ==> w.k in ctxs && (w.Opening? <==> ctxs[w.k].id == 0))
    && (Works(w) ==> (w.Opening? || w.Loaded? <==> !ctxs[w.k].counted))
    && (Works(w) && !w.Opening? && !w.Loaded? && !w.Headers? && !w.Telling? ==> w.left > 0)
    && (w.GotConn? || w.SawWindow? ==> w.serverWin <= serverWindow)
    && (w.Chosen? || w.Sent? || w.Debited? ==> 1 <= w.chunk <= w.left && w.chunk <= MAX)
    && (w.Chosen? || w.Sent? ==> w.chunk <= serverWindow)
  }

  ghost predicate ConnOk(c: Conn) {
    && c.nextID > 0
    && ValidSettings(c.settings)
    && 0 <= c.serverWindow <= MAX
    && c.serverWindow == 65535 + c.connCredit - c.connDebited
    && c.connSent == c.connDebited + (if c.writer.Sent? then c.writer.chunk else 0)
    && (c.failed ==> c.reader.Failing? || c.reader.Done?)
    && (c.writer.Loaded? ==> c.writer.win <= MAX)
    && (c.writer.Loaded? && c.writer.k in c.ctxs && !c.failed ==>
          c.writer.win + c.ctxs[c.writer.k].missed == c.settings.initialWindow)
  }

  ghost predicate Inv(c: Conn) {
    CtxsOk(c) && WriterOk(c.writer, c.ctxs, c.serverWindow) && ConnOk(c)
  }

  /** The signed difference of two valid initial windows does not wrap. */
  lemma DeltaIsExact(c: Conn, st: Settings)
    requires ValidSettings(c.settings) && ValidSettings(st)
    ensures Delta(c, st) == st.initialWindow - c.settings.initialWindow
  {
  }

  lemma ShiftKeeps(x: Ctx, pending: nat, was: nat, now: nat)
    requires CtxOk(x, pending, false, was) && x.inTable && was <= MAX && now <= MAX
    requires x.window + (now - was) <= MAX
    ensures CtxOk(Shift(x, now - was), pending, false, now)
    ensures CtxOk(Shift(x, now - was), pending, true, was)
  {
  }

  lemma AdoptKeeps(c: Conn, st: Settings)
    requires Inv(c) && c.reader.Ready? && ValidSettings(st) && AllFit(c, Delta(c, st))
    ensures Inv(Adopt(c, st))
  {
    var d := Adopt(c, st);
    DeltaIsExact(c, st);
    forall k | k in d.ctxs
      ensures CtxOk(d.ctxs[k], Pending(d.writer, k), d.failed, st.initialWindow)
    {
      if c.ctxs[k].inTable {
        ShiftKeeps(c.ctxs[k], Pending(c.writer, k), c.settings.initialWindow, st.initialWindow);
      }
    }
  }

  lemma RefuseKeeps(c: Conn, st: Settings, hit: set<nat>)
    requires Inv(c) && c.reader.Ready? && ValidSettings(st) && SomeFit(c, Delta(c, st), hit)
    ensures Inv(Refuse(c, st, hit))
  {
    var d := Refuse(c, st, hit);
    DeltaIsExact(c, st);
    forall k | k in d.ctxs
      ensures CtxOk(d.ctxs[k], Pending(d.writer, k), true, d.settings.initialWindow)
    {
      if k in hit {
        ShiftKeeps(c.ctxs[k], Pending(c.writer, k), c.settings.initialWindow, st.initialWindow);
      }
    }
  }

  /** A chunk is chosen within the stream's window, so it fits what the stream was ever granted. */
  lemma MoveKeeps(c: Conn, s: WriteStep)
    requires Inv(c) && Moves(s) && CanWrite(c, s)
    ensures Inv(c.(writer := Move(c, s)))
  {
    var w := Move(c, s);
    forall k | k in c.ctxs
      ensures CtxOk(c.ctxs[k], Pending(w, k), c.failed, c.settings.initialWindow)
    {
    }
  }

  /** The context map changes at most at `k`. */
  ghost predicate OnlyAt(c: Conn, d: Conn, k: nat) {
    && k in d.ctxs
    && d.ctxs == c.ctxs[k := d.ctxs[k]]
    && d.settings == c.settings
    && (c.failed ==> d.failed)
    && (forall j | j != k :: Pending(d.writer, j) == Pending(c.writer, j))
    && CtxOk(d.ctxs[k], Pending(d.writer, k), d.failed, d.settings.initialWindow)
  }

  lemma OthersKeep(c: Conn, d: Conn, k: nat)
    requires CtxsOk(c) && OnlyAt(c, d, k)
    ensures CtxsOk(d)
  {
  }

  /** The writer and the connection window stay; the context at `k` keeps its identifier. */
  lemma WriterKeeps(c: Conn, d: Conn, k: nat)
    requires WriterOk(c.writer, c.ctxs, c.serverWindow) && k in c.ctxs && k in d.ctxs
    requires d.ctxs == c.ctxs[k := d.ctxs[k]] && d.ctxs[k].id == c.ctxs[k].id && d.ctxs[k].counted == c.ctxs[k].counted
    requires d.writer == c.writer && d.serverWindow >= c.serverWindow
    ensures WriterOk(d.writer, d.ctxs, d.serverWindow)
  {
  }

  lemma IdentifyKeeps(c: Conn)
    requires Inv(c) && c.writer.Opening?
    ensures Inv(Identify(c))
  {
    OthersKeep(c, Identify(c), c.writer.k);
  }

  lemma CommitKeeps(c: Conn)
    requires Inv(c) && c.writer.Loaded?
    ensures Inv(Commit(c))
  {
    OthersKeep(c, Commit(c), c.writer.k);
  }

  lemma AbandonKeeps(c: Conn)
    requires Inv(c) && (c.writer.Headers? || c.writer.Top? || c.writer.Chosen?)
    ensures Inv(Abandon(c))
  {
    OthersKeep(c, Abandon(c), c.writer.k);
  }

  lemma SendKeeps(c: Conn)
    requires Inv(c) && c.writer.Chosen?
    ensures Inv(SendFrame(c))
  {
    OthersKeep(c, SendFrame(c), c.writer.k);
  }

  lemma TakeFromConnKeeps(c: Conn)
    requires Inv(c) && c.writer.Sent?
    ensures Inv(TakeFromConn(c))
  {
    OthersKeep(c, TakeFromConn(c), c.writer.k);
  }

  /** The debit may meet a window that SETTINGS lowered after the choice; it still cannot wrap. */
  lemma TakeFromStreamKeeps(c: Conn)
    requires Inv(c) && c.writer.Debited?
    ensures Inv(TakeFromStream(c))
  {
    OthersKeep(c, TakeFromStream(c), c.writer.k);
  }

  lemma GrowConnKeeps(c: Conn, inc: nat)
    requires Inv(c) && c.reader.Ready?
    ensures Inv(GrowConn(c, inc))
  {
    var d := GrowConn(c, inc);
    if c.serverWindow + inc > MAX {
      QuietKeeps(c, d);
    } else {
      assert CtxsOk(d);
    }
  }

  lemma GrowStreamKeeps(c: Conn, k: nat, inc: nat)
    requires Inv(c) && c.reader.Ready? && InTable(c, k) && c.ctxs[k].window + inc <= MAX
    ensures Inv(GrowStream(c, k, inc))
  {
    OthersKeep(c, GrowStream(c, k, inc), k);
    WriterKeeps(c, GrowStream(c, k, inc), k);
  }

  lemma MarkErredKeeps(c: Conn, k: nat)
    requires Inv(c) && c.reader.Ready? && k in c.ctxs
    ensures Inv(MarkErred(c, k))
  {
    OthersKeep(c, MarkErred(c, k), k);
    WriterKeeps(c, MarkErred(c, k), k);
  }

  lemma BeginFinishKeeps(c: Conn, k: nat)
    requires Inv(c) && (c.reader.Ready? || c.reader.Erred?) && k in c.ctxs
    ensures Inv(BeginFinish(c, k))
  {
    OthersKeep(c, BeginFinish(c, k), k);
    WriterKeeps(c, BeginFinish(c, k), k);
  }

  lemma EndFinishKeeps(c: Conn)
    requires Inv(c) && c.reader.Finishing? && c.reader.k in c.ctxs
    ensures Inv(EndFinish(c))
  {
    OthersKeep(c, EndFinish(c), c.reader.k);
    WriterKeeps(c, EndFinish(c), c.reader.k);
  }

  lemma PurgeKeeps(c: Conn, last: nat)
    requires Inv(c)
    ensures Inv(Purge(c, last))
  {
    assert CtxsOk(Purge(c, last));
  }

  lemma BeginCancelKeeps(c: Conn, k: nat)
    requires Inv(c) && k in c.ctxs
    ensures Inv(BeginCancel(c, k))
  {
    OthersKeep(c, BeginCancel(c, k), k);
    WriterKeeps(c, BeginCancel(c, k), k);
  }

  lemma EndCancelKeeps(c: Conn, k: nat)
    requires Inv(c) && k in c.ctxs
    ensures Inv(EndCancel(c, k))
  {
    var d := EndCancel(c, k);
    if c.ctxs[k].id == 0 {
      QuietKeeps(c, d);
    } else {
      OthersKeep(c, d, k);
      WriterKeeps(c, d, k);
    }
  }

  /** Only the reader's place and the broadcasts owed change, or a sleeping writer wakes. */
  ghost predicate Quiet(c: Conn, d: Conn) {
    && d.ctxs == c.ctxs && d.settings == c.settings && (c.failed ==> d.failed)
    && (d.writer == c.writer || d.writer == Woken(c.writer))
    && d.serverWindow == c.serverWindow && d.nextID == c.nextID
    && d.connCredit == c.connCredit && d.connDebited == c.connDebited && d.connSent == c.connSent
    && (d.failed ==> d.reader.Failing? || d.reader.Done?)
  }

  lemma QuietKeeps(c: Conn, d: Conn)
    requires Inv(c) && Quiet(c, d)
    ensures Inv(d)
  {
    assert forall k :: Pending(d.writer, k) == Pending(c.writer, k);
  }

  lemma WriteKeepsInv(c: Conn, s: WriteStep)
    requires Inv(c) && CanWrite(c, s)
    ensures Inv(NextWrite(c, s))
  {
    if Moves(s) {
      MoveKeeps(c, s);
    } else if s.Submit? {
      OthersKeep(c, NextWrite(c, s), s.k);
    } else if s.OpenLoad? {
      IdentifyKeeps(c);
    } else if s.OpenCommit? {
      CommitKeeps(c);
    } else if s.WriteError? || s.GiveUp? {
      AbandonKeeps(c);
    } else if s.Send? {
      SendKeeps(c);
    } else if s.DebitConn? {
      TakeFromConnKeeps(c);
    } else {
      TakeFromStreamKeeps(c);
    }
  }

  lemma ReadKeepsInv(c: Conn, s: ReadStep)
    requires Inv(c) && CanRead(c, s)
    ensures Inv(NextRead(c, s))
  {
    match s
    case ConnWindowUpdate(inc) => GrowConnKeeps(c, inc);
    case StreamWindowUpdate(k, inc) =>
      if c.ctxs[k].window + inc <= MAX {
        GrowStreamKeeps(c, k, inc);
      } else {
        MarkErredKeeps(c, k);
      }
    case ApplySettings(st) => AdoptKeeps(c, st);
    case RejectSettings(st, hit) => RefuseKeeps(c, st, hit);
    case FrameError(k) => MarkErredKeeps(c, k);
    case FinishSwap(k) => BeginFinishKeeps(c, k);
    case FinishTail => EndFinishKeeps(c);
    case GoAway(last) => PurgeKeeps(c, last);
    case ReadBroadcast => QuietKeeps(c, NextRead(c, s));
    case ReadError => QuietKeeps(c, NextRead(c, s));
    case ReadClose => QuietKeeps(c, NextRead(c, s));
  }

  lemma CallKeepsInv(c: Conn, s: CallStep)
    requires Inv(c) && CanCall(c, s)
    ensures Inv(NextCall(c, s))
  {
    match s
    case CancelSwap(k) => BeginCancelKeeps(c, k);
    case CancelTail(k) => EndCancelKeeps(c, k);
    case CancelBroadcast => QuietKeeps(c, NextCall(c, s));
    case CloseSwap => QuietKeeps(c, NextCall(c, s));
    case CloseBroadcast => QuietKeeps(c, NextCall(c, s));
    case TellLook(_) => QuietKeeps(c, NextCall(c, s));
    case TellSend(_) => QuietKeeps(c, NextCall(c, s));
  }

  lemma StepKeepsInv(c: Conn, s: Step)
    requires Inv(c) && Enabled(c, s)
    ensures Inv(Next(c, s))
  {
    match s
    case Write(w) => WriteKeepsInv(c, w);
    case Read(r) => ReadKeepsInv(c, r);
    case Call(o) => CallKeepsInv(c, o);
  }

  lemma {:induction false} RunKeepsInv(c: Conn, ss: seq<Step>, d: Conn)
    requires Inv(c) && Run(c, ss, d)
    ensures Inv(d)
    decreases |ss|
  {
    if ss != [] {
      StepKeepsInv(c, ss[0]);
      RunKeepsInv(Next(c, ss[0]), ss[1..], d);
    }
  }

  lemma ReachableInv(st: Settings, c: Conn)
    requires Reachable(st, c)
    ensures Inv(c)
  {
    var ss :| Run(Init(st), ss, c);
    RunKeepsInv(Init(st), ss, c);
  }

  /**
   Nothing wraps: in every reachable state every stream that was ever opened, on a failed
   connection, purged, closed or opened at a window of 0 included, has an int32 window that
   is the exact integer sum of what was put into it and taken out, although SETTINGS may move
   it between the choice of a chunk and its debit (section 6.9.2 of RFC 9113).
   */
  lemma WindowsNeverWrap(st: Settings, c: Conn, k: nat)
    requires Reachable(st, c) && k in c.ctxs && c.ctxs[k].counted
    ensures c.ctxs[k].window
            == c.ctxs[k].base + (if c.ctxs[k].openedAtZero then 65535 else 0) + c.ctxs[k].credit - c.ctxs[k].debited
    ensures -MAX <= c.ctxs[k].window - Pending(c.writer, k) <= c.ctxs[k].window <= MAX
  {
    ReachableInv(st, c);
  }

  /**
   Conservation with what spoils it: a stream of a connection that has not failed has
   window = current initial window + credit - debits, plus 65535 if it was opened at an
   initial window of 0, less the changes of the initial window that landed between its load
   and the store into the table. It is conserved exactly when these two cancel out.
   */
  lemma WindowConserved(st: Settings, c: Conn, k: nat)
    requires Reachable(st, c) && !c.failed && InTable(c, k)
    ensures var x, spoilt := c.ctxs[k], (if c.ctxs[k].openedAtZero then 65535 else 0) - c.ctxs[k].missed;
            && x.window == c.settings.initialWindow + x.credit - x.debited + spoilt
            && (x.window == c.settings.initialWindow + x.credit - x.debited <==> spoilt == 0)
  {
    ReachableInv(st, c);
  }

  /** An initial window of 0 is taken for "not set": the stream starts with 65535 bytes of credit nobody gave. */
  lemma ZeroWindowIsIgnored()
    ensures exists st, c :: Reachable(st, c) && !c.failed && InTable(c, 7) && c.settings.initialWindow == 0
              && c.ctxs[7].credit == 0 && c.ctxs[7].window == 65535
  {
    var st := Settings(0, 16384, 100);
    var c := OpenPath(st, 7, 10);
  }

  /** The first half of an open right after the handshake. */
  lemma LoadPath(st: Settings, k: nat, body: nat) returns (c: Conn)
    requires ValidSettings(st) && 0 < Wrap(st.maxStreams)
    ensures Reachable(st, c) && c.settings == st && c.reader == Ready && !c.failed && c.openStreams == 0
    ensures c.writer == Loaded(k, body, Wrap(st.maxStreams), st.initialWindow)
    ensures c.ctxs == map[k := FreshCtx.(id := 1, state := Open)]
  {
    var c1 := CheckPath(st, k, body);
    c := NextWrite(c1, OpenLoad);
    StepReachable(st, c1, Write(OpenLoad));
  }

  lemma CheckPath(st: Settings, k: nat, body: nat) returns (c: Conn)
    requires ValidSettings(st) && 0 < Wrap(st.maxStreams)
    ensures Reachable(st, c)
    ensures c == Init(st).(ctxs := map[k := FreshCtx], writer := Opening(k, body, Wrap(st.maxStreams)))
  {
    InitReachable(st);
    var c1 := NextWrite(Init(st), Submit(k));
    StepReachable(st, Init(st), Write(Submit(k)));
    c := NextWrite(c1, OpenCheck(k, body));
    StepReachable(st, c1, Write(OpenCheck(k, body)));
  }

  lemma OpenPath(st: Settings, k: nat, body: nat) returns (c: Conn)
    requires ValidSettings(st) && 0 < Wrap(st.maxStreams)
    ensures Reachable(st, c) && InTable(c, k) && !c.failed && c.settings == st && c.reader == Ready
    ensures c.writer == Headers(k, body) && c.ctxs[k].credit == 0
    ensures c.ctxs[k].state != Closed && c.ctxs[k].errCloses == 0
    ensures c.ctxs[k].window == if st.initialWindow == 0 then 65535 else st.initialWindow
  {
    var c1 := LoadPath(st, k, body);
    c := NextWrite(c1, OpenCommit);
    StepReachable(st, c1, Write(OpenCommit));
  }

  /** A change of the initial window while a stream is being opened passes the stream by. */
  lemma SettingsMissTheOpen(st: Settings, now: Settings)
    requires ValidSettings(st) && ValidSettings(now) && 0 < Wrap(st.maxStreams) && st.initialWindow > 0
    ensures exists c :: Reachable(st, c) && !c.failed && InTable(c, 7) && c.settings == now
              && c.ctxs[7].credit == 0 && c.ctxs[7].debited == 0 && c.ctxs[7].window == st.initialWindow
  {
    var c1 := LoadPath(st, 7, 10);
    var c2 := NextRead(c1, ApplySettings(now));
    StepReachable(st, c1, Read(ApplySettings(now)));
    var c3 := NextWrite(c2, OpenCommit);
    StepReachable(st, c2, Write(OpenCommit));
    assert InTable(c3, 7);
  }

  /**
   Credit safety over whole runs: with one body writer, the DATA bytes sent never exceed
   65535 plus every accepted connection-level increment (sections 5.2 and 6.9.1 of
   RFC 9113), and the connection window stays in 0..2^31-1.
   */
  lemma CreditIsRespected(st: Settings, c: Conn)
    requires Reachable(st, c)
    ensures c.connSent <= 65535 + c.connCredit
    ensures 0 <= c.serverWindow <= MAX
  {
    ReachableInv(st, c);
  }
}
