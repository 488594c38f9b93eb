/**
 Sends on the Err channels of the connection machine, over every run. finish closes a stream's channel, and
 a send on a closed channel panics: which sends are safe, and exactly when the others are.
 */
module ConnErr {
  import opened Int32
  import opened ConnMachine
  import opened ConnLifecycle
  import ConnWindows

  ghost predicate ErrClosed(c: Conn, k: nat) {
    k in c.ctxs && c.ctxs[k].errCloses > 0
  }

  // ---- When a channel can still be closed ----

  predicate Reading(r: Reader) {
    !r.Failing? && !r.Done?
  }

  /**
   The channel of `k` is closed, finish is under way for `k`, or a frame for `k` can still arrive: the read
   loop has not failed, and the stream is in the table and not closed.
   */
  predicate MayClose(c: Conn, k: nat)
    requires k in c.ctxs
  {
    || c.ctxs[k].errCloses > 0
    || InFinish(c.reader, k)
    || (c.ctxs[k].inTable && c.ctxs[k].state != Closed && Reading(c.reader))
  }

  /** An opened stream whose channel stays open for good. */
  ghost predicate Past(c: Conn, k: nat) {
    k in c.ctxs && c.ctxs[k].counted && !MayClose(c, k)
  }

  lemma SameLifePast(c: Conn, d: Conn, k: nat)
    requires Past(c, k) && SameLife(c, d) && (Reading(d.reader) ==> Reading(c.reader))
    ensures Past(d, k)
  {
    assert SameCtxLife(c.ctxs[k], d.ctxs[k]);
  }

  lemma OpenPast(c: Conn, s: WriteStep, k: nat)
    requires ConnWindows.WriterOk(c.writer, c.ctxs, c.serverWindow) && CanWrite(c, s) && Past(c, k) && OpenStep(s)
    ensures Past(NextWrite(c, s), k)
  {
    OpenEffect(c, s);
  }

  lemma WritePast(c: Conn, s: WriteStep, k: nat)
    requires ConnWindows.WriterOk(c.writer, c.ctxs, c.serverWindow) && CanWrite(c, s) && Past(c, k)
    ensures Past(NextWrite(c, s), k)
  {
    var d := NextWrite(c, s);
    if OpenStep(s) {
      OpenPast(c, s, k);
    } else if Fails(s) {
      assert d == Abandon(c);
    } else {
      WriteEffectOnLife(c, s);
      WriteLeavesReader(c, s);
      SameLifePast(c, d, k);
    }
  }

  lemma WriteLeavesReader(c: Conn, s: WriteStep)
    requires CanWrite(c, s)
    ensures NextWrite(c, s).reader == c.reader
  {
  }

  lemma ReadPast(c: Conn, s: ReadStep, k: nat)
    requires CanRead(c, s) && Past(c, k)
    ensures Past(NextRead(c, s), k)
  {
    if Settled(c, s) {
      ReadEffectOnLife(c, s);
      ReadingEnds(c, s);
      SameLifePast(c, NextRead(c, s), k);
    } else {
      FinishPast(c, s, k);
    }
  }

  lemma ReadingEnds(c: Conn, s: ReadStep)
    requires CanRead(c, s)
    ensures Reading(NextRead(c, s).reader) ==> Reading(c.reader)
  {
  }

  lemma FinishPast(c: Conn, s: ReadStep, k: nat)
    requires CanRead(c, s) && Past(c, k) && !Settled(c, s)
    ensures Past(NextRead(c, s), k)
  {
    if s.FinishTail? {
      assert NextRead(c, s) == EndFinish(c);
    } else if s.FinishSwap? {
      assert NextRead(c, s) == BeginFinish(c, s.k);
    } else {
      assert NextRead(c, s) == MarkErred(c, s.k);
    }
  }

  lemma CallPast(c: Conn, s: CallStep, k: nat)
    requires CanCall(c, s) && Past(c, k)
    ensures Past(NextCall(c, s), k)
  {
    if s.CancelTail? {
      assert NextCall(c, s) == EndCancel(c, s.k);
    } else if s.CancelSwap? {
      assert NextCall(c, s) == BeginCancel(c, s.k);
    } else {
      assert NextCall(c, s).ctxs == c.ctxs && NextCall(c, s).reader == c.reader;
    }
  }

  lemma {:induction false} RunPast(c: Conn, ss: seq<Step>, d: Conn, k: nat)
    requires ConnWindows.Inv(c) && Past(c, k) && Run(c, ss, d)
    ensures Past(d, k)
    decreases |ss|
  {
    if ss != [] {
      var s := ss[0];
      match s {
        case Write(w) => WritePast(c, w, k);
        case Read(r) => ReadPast(c, r, k);
        case Call(o) => CallPast(c, o, k);
      }
      ConnWindows.StepKeepsInv(c, s);
      RunPast(Next(c, s), ss[1..], d, k);
    }
  }

  // ---- Only finish closes a channel, and nothing opens it again ----

  predicate SameErr(c: Conn, d: Conn, k: nat) {
    k in c.ctxs && k in d.ctxs && d.ctxs[k].errCloses == c.ctxs[k].errCloses
  }

  lemma WriteKeepsErr(c: Conn, s: WriteStep, k: nat)
    requires CanWrite(c, s) && k in c.ctxs
    ensures SameErr(c, NextWrite(c, s), k)
  {
    if OpenStep(s) {
      OpenEffect(c, s);
    } else if Fails(s) {
      assert NextWrite(c, s) == Abandon(c);
    } else {
      WriteEffectOnLife(c, s);
    }
  }

  lemma ReadKeepsErr(c: Conn, s: ReadStep, k: nat)
    requires CanRead(c, s) && k in c.ctxs
    ensures s != FinishTail ==> SameErr(c, NextRead(c, s), k)
    ensures ErrClosed(c, k) ==> ErrClosed(NextRead(c, s), k)
  {
    if Settled(c, s) {
      ReadEffectOnLife(c, s);
      assert SameCtxLife(c.ctxs[k], NextRead(c, s).ctxs[k]);
    } else if s.FinishTail? {
      assert NextRead(c, s) == EndFinish(c);
    } else if s.FinishSwap? {
      assert NextRead(c, s) == BeginFinish(c, s.k);
    } else {
      assert NextRead(c, s) == MarkErred(c, s.k);
    }
  }

  lemma CallKeepsErr(c: Conn, s: CallStep, k: nat)
    requires CanCall(c, s) && k in c.ctxs
    ensures SameErr(c, NextCall(c, s), k)
  {
    if s.CancelTail? {
      assert NextCall(c, s) == EndCancel(c, s.k);
    } else if s.CancelSwap? {
      assert NextCall(c, s) == BeginCancel(c, s.k);
    } else {
      assert NextCall(c, s).ctxs == c.ctxs;
    }
  }

  lemma StepKeepsErr(c: Conn, s: Step, k: nat)
    requires Enabled(c, s) && k in c.ctxs
    ensures s != Read(FinishTail) ==> SameErr(c, Next(c, s), k)
    ensures ErrClosed(c, k) ==> ErrClosed(Next(c, s), k)
  {
    match s
    case Write(w) => WriteKeepsErr(c, w, k);
    case Read(r) => ReadKeepsErr(c, r, k);
    case Call(o) => CallKeepsErr(c, o, k);
  }

  lemma {:induction false} RunKeepsErr(c: Conn, ss: seq<Step>, d: Conn, k: nat)
    requires k in c.ctxs && Run(c, ss, d)
    ensures ErrClosed(c, k) ==> ErrClosed(d, k)
    ensures Read(FinishTail) !in ss ==> SameErr(c, d, k)
    decreases |ss|
  {
    if ss != [] {
      var later := Next(c, ss[0]);
      StepKeepsErr(c, ss[0], k);
      RunKeepsErr(later, ss[1..], d, k);
      assert ss[0] in ss && forall s | s in ss[1..] :: s in ss;
    }
  }

  // ---- Ways to the end of finish ----

  /** The writer's place that finish and the broadcast after it leave alone. */
  predicate Settles(w: Writer) {
    !HoldsWindowMu(w) && !w.Asleep?
  }

  lemma FinishRuns(c: Conn, k: nat) returns (d: Conn)
    requires InFinish(c.reader, k) && k in c.ctxs
    ensures Leads(c, d) && ErrClosed(d, k) && d.writer == c.writer && d.tellers == c.tellers
    ensures d.reader == OwesBroadcast
    ensures forall j | j in c.ctxs && j != k :: j in d.ctxs && d.ctxs[j] == c.ctxs[j]
  {
    Stays(c);
    var c1 := c;
    if c.reader.Erred? {
      c1 := BeginFinish(c, k);
      GoesOn(c, c, Read(FinishSwap(k)));
    }
    d := EndFinish(c1);
    GoesOn(c, c1, Read(FinishTail));
  }

  /** How many steps a writer that holds windowMu has to go at most. */
  function ToGo(w: Writer): nat {
    if w.SawConnOpen? then 4 else if w.SawStreamOpen? then 3 else if w.SawWindow? then 2 else if w.Sleepy? then 1 else 0
  }

  lemma OneMove(c: Conn) returns (s: WriteStep)
    requires HoldsWindowMu(c.writer) && c.writer.k in c.ctxs
    ensures CanWrite(c, s) && Moves(s) && ToGo(Move(c, s)) < ToGo(c.writer)
    ensures Works(Move(c, s)) && Move(c, s).k == c.writer.k
  {
    s := if c.writer.SawConnOpen? then WaitState else if c.writer.SawStreamOpen? then WaitLoadConn
         else if c.writer.SawWindow? then WaitLoadStream else Sleep;
  }

  /** A writer that holds windowMu lets go of it by its own steps. */
  lemma {:induction false} LetsGo(c: Conn) returns (d: Conn)
    requires Works(c.writer) ==> c.writer.k in c.ctxs
    ensures Leads(c, d) && d == c.(writer := d.writer) && !HoldsWindowMu(d.writer)
    ensures !HoldsWindowMu(c.writer) ==> d == c
    decreases ToGo(c.writer)
  {
    Stays(c);
    if HoldsWindowMu(c.writer) {
      var s := OneMove(c);
      var e := c.(writer := Move(c, s));
      GoesOn(c, c, Write(s));
      d := LetsGo(e);
      LeadsOn(c, e, d);
    } else {
      d := c;
    }
  }

  /** A read loop that has not failed gets to its next frame. */
  lemma GetsReady(c: Conn, k: nat) returns (d: Conn)
    requires (Works(c.writer) ==> c.writer.k in c.ctxs) && KnownOk(c)
    requires k in c.ctxs && Reading(c.reader) && !InFinish(c.reader, k)
    ensures Leads(c, d) && d.reader == Ready && k in d.ctxs && d.ctxs[k] == c.ctxs[k] && d.tellers == c.tellers
    ensures Settles(c.writer) ==> d.writer == c.writer
  {
    d := LetsGo(c);
    if d.reader.Erred? || d.reader.Finishing? {
      var e := FinishRuns(d, d.reader.k);
      LeadsOn(c, d, e);
      d := e;
    }
    if d.reader.OwesBroadcast? {
      GoesOn(c, d, Read(ReadBroadcast));
      d := NextRead(d, ReadBroadcast);
    }
  }

  lemma Closes(c: Conn, k: nat) returns (d: Conn)
    requires (Works(c.writer) ==> c.writer.k in c.ctxs) && KnownOk(c)
    requires k in c.ctxs && MayClose(c, k)
    ensures Leads(c, d) && ErrClosed(d, k) && d.tellers == c.tellers
    ensures Settles(c.writer) || c.ctxs[k].errCloses > 0 || InFinish(c.reader, k) ==> d.writer == c.writer
  {
    if c.ctxs[k].errCloses > 0 {
      Stays(c);
      d := c;
    } else if InFinish(c.reader, k) {
      d := FinishRuns(c, k);
    } else {
      var e := GetsReady(c, k);
      GoesOn(c, e, Read(FinishSwap(k)));
      e := BeginFinish(e, k);
      d := FinishRuns(e, k);
      LeadsOn(c, e, d);
    }
  }

  lemma ReachableReady(st: Settings, c: Conn)
    requires Reachable(st, c)
    ensures ConnWindows.Inv(c) && KnownOk(c)
  {
    ConnWindows.ReachableInv(st, c);
    ReachableLife(st, c);
  }

  // ---- Theorems ----

  /** Some continuation closes the channel of an opened stream exactly if it may still be closed. */
  lemma ErrClosesExactly(st: Settings, c: Conn, k: nat)
    requires Reachable(st, c) && k in c.ctxs && c.ctxs[k].counted
    ensures (exists d :: Leads(c, d) && ErrClosed(d, k)) <==> MayClose(c, k)
  {
    ReachableReady(st, c);
    if MayClose(c, k) {
      var d := Closes(c, k);
    } else if d :| Leads(c, d) && ErrClosed(d, k) {
      var ss :| Run(c, ss, d);
      RunPast(c, ss, d, k);
    }
  }

  lemma ReachableInTable(st: Settings, c: Conn, k: nat)
    requires Reachable(st, c) && k in c.ctxs && (c.ctxs[k].inTable || InFinish(c.reader, k))
    ensures c.ctxs[k].errCloses == 0 && c.ctxs[k].counted
  {
    ReachableLife(st, c);
    assert LifeOkAt(c, k);
  }

  /**
   The sends of the read loop, by finish itself and by GOAWAY to the streams it finds in the table, are safe:
   whatever other threads do between the look and the send, the channel stays open.
   */
  lemma ReadLoopSendsAreSafe(st: Settings, c: Conn, k: nat, ss: seq<Step>, d: Conn)
    requires Reachable(st, c) && k in c.ctxs && (c.ctxs[k].inTable || InFinish(c.reader, k))
    requires Run(c, ss, d) && forall i | 0 <= i < |ss| :: !ss[i].Read?
    ensures k in d.ctxs && d.ctxs[k].errCloses == 0
  {
    ReachableInTable(st, c, k);
    RunKeepsErr(c, ss, d, k);
  }

  /** A send that the write loop has ahead for an opened stream. */
  lemma SendMeans(st: Settings, c: Conn, k: nat)
    requires Reachable(st, c) && k in c.ctxs && c.ctxs[k].counted && Settles(c.writer)
    ensures (exists d :: Leads(c, d) && d.writer == c.writer && ErrClosed(d, k)) <==> MayClose(c, k)
    ensures (forall d | Leads(c, d) && d.writer == c.writer :: ErrClosed(d, k)) <==> c.ctxs[k].errCloses > 0
  {
    ErrClosesExactly(st, c, k);
    ReachableReady(st, c);
    Stays(c);
    if MayClose(c, k) {
      var d := Closes(c, k);
    }
    if c.ctxs[k].errCloses > 0 {
      forall d | Leads(c, d) && d.writer == c.writer
        ensures ErrClosed(d, k)
      {
        var ss :| Run(c, ss, d);
        RunKeepsErr(c, ss, d, k);
      }
    }
  }

  /**
   The write loop's send after a failed write: it can find the channel closed exactly if finish has run or is
   under way when the write fails, and must find it closed exactly if finish has run.
   */
  lemma WriteErrorSend(st: Settings, c: Conn)
    requires Reachable(st, c) && CanWrite(c, WriteError)
    ensures var k, d := c.writer.k, NextWrite(c, WriteError);
            && d.writer.Telling? && d.writer.k == k
            && ((exists e :: Leads(d, e) && e.writer == d.writer && ErrClosed(e, k))
                <==> c.ctxs[k].errCloses > 0 || InFinish(c.reader, k))
            && ((forall e | Leads(d, e) && e.writer == d.writer :: ErrClosed(e, k)) <==> c.ctxs[k].errCloses > 0)
  {
    var k, d := c.writer.k, NextWrite(c, WriteError);
    assert d == Abandon(c);
    ReachableReady(st, c);
    StepReachable(st, c, Write(WriteError));
    SendMeans(st, d, k);
  }

  /**
   waitExpectContinue takes a value from the channel and sends it back: the send can find the channel closed
   exactly if it may still be closed when the value is taken, and must exactly if it was closed then.
   */
  lemma ExpectSend(st: Settings, c: Conn)
    requires Reachable(st, c) && CanWrite(c, ExpectTake)
    ensures var k, d := c.writer.k, NextWrite(c, ExpectTake);
            && d.writer == Returning(k, c.writer.left)
            && ((exists e :: Leads(d, e) && e.writer == d.writer && ErrClosed(e, k)) <==> MayClose(c, k))
            && ((forall e | Leads(d, e) && e.writer == d.writer :: ErrClosed(e, k)) <==> c.ctxs[k].errCloses > 0)
  {
    var k, d := c.writer.k, NextWrite(c, ExpectTake);
    assert d == c.(writer := Returning(k, c.writer.left));
    ReachableReady(st, c);
    StepReachable(st, c, Write(ExpectTake));
    SendMeans(st, d, k);
  }

  /**
   A broadcast of an error finds the stream in the table and then sends: the send can find the channel closed
   exactly if finish is under way at the look, or the stream is not closed and the read loop has not failed.
   */
  lemma BroadcastSend(st: Settings, c: Conn, k: nat)
    requires Reachable(st, c) && CanCall(c, TellLook(k))
    ensures var d := NextCall(c, TellLook(k));
            (exists e :: Leads(d, e) && k in e.tellers && ErrClosed(e, k))
            <==> InFinish(c.reader, k) || (c.ctxs[k].state != Closed && Reading(c.reader))
  {
    var d := NextCall(c, TellLook(k));
    ReachableInTable(st, c, k);
    StepReachable(st, c, Call(TellLook(k)));
    ErrClosesExactly(st, d, k);
    ReachableReady(st, d);
    assert k in d.tellers;
    if MayClose(d, k) {
      var e := Closes(d, k);
    }
  }

  // ---- Each of the three can fail ----

  /** An open right after the handshake, and a continuation in which finish has closed the channel. */
  lemma OpenThenFinish(st: Settings) returns (c: Conn, d: Conn)
    requires ValidSettings(st) && 0 < Wrap(st.maxStreams)
    ensures Reachable(st, c) && c.writer == Headers(7, 10) && c.reader == Ready && InTable(c, 7)
    ensures c.ctxs[7].state != Closed
    ensures Reachable(st, d) && d.writer == c.writer && ErrClosed(d, 7)
  {
    c := ConnWindows.OpenPath(st, 7, 10);
    ReachableReady(st, c);
    d := Closes(c, 7);
    ReachableOn(st, c, d);
  }

  lemma ReachableOn(st: Settings, c: Conn, d: Conn)
    requires Reachable(st, c) && Leads(c, d)
    ensures Reachable(st, d)
  {
    LeadsOn(Init(st), c, d);
  }

  lemma WriteErrorSendFails(st: Settings)
    requires ValidSettings(st) && 0 < Wrap(st.maxStreams)
    ensures exists c :: Reachable(st, c) && c.writer.Telling? && ErrClosed(c, c.writer.k)
  {
    var c, d := OpenThenFinish(st);
    StepReachable(st, d, Write(WriteError));
    assert NextWrite(d, WriteError) == Abandon(d);
  }

  lemma ExpectSendFails(st: Settings)
    requires ValidSettings(st) && 0 < Wrap(st.maxStreams)
    ensures exists c :: Reachable(st, c) && c.writer.Returning? && ErrClosed(c, c.writer.k)
  {
    var c, d := OpenThenFinish(st);
    StepReachable(st, d, Write(ExpectWait));
    var e := d.(writer := Expecting(7, 10));
    StepReachable(st, e, Write(ExpectTake));
    assert ErrClosed(e.(writer := Returning(7, 10)), 7);
  }

  lemma BroadcastSendFails(st: Settings)
    requires ValidSettings(st) && 0 < Wrap(st.maxStreams)
    ensures exists c, k :: Reachable(st, c) && k in c.tellers && ErrClosed(c, k)
  {
    var c, _ := OpenThenFinish(st);
    var c1 := if c.closed then c else NextCall(c, CloseSwap);
    if !c.closed {
      StepReachable(st, c, Call(CloseSwap));
    }
    var c2 := if c1.closeOwes then NextCall(c1, CloseBroadcast) else c1;
    if c1.closeOwes {
      StepReachable(st, c1, Call(CloseBroadcast));
    }
    StepReachable(st, c2, Call(TellLook(7)));
    var c3 := NextCall(c2, TellLook(7));
    ReachableReady(st, c3);
    var d := Closes(c3, 7);
    ReachableOn(st, c3, d);
    assert 7 in d.tellers;
  }
}
