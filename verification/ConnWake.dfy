/**
 The wait/broadcast protocol of the connection machine loses no wake-up: the body writer
 tests its conditions one load at a time while it holds windowMu, the other threads change
 them without the mutex and take it only to broadcast.
 */
module ConnWake {
  import opened ConnMachine
  import ConnWindows

  /** Some other thread has still to broadcast on the condition variable for context `k`. */
  predicate Owes(c: Conn, k: nat) {
    || c.reader.Erred? || c.reader.Finishing? || c.reader.OwesBroadcast?
    || (c.reader.Failing? && !c.closed)
    || c.cancelOwes > 0
    || c.cancelling[k] > 0
    || c.closeOwes
  }

  /** Places of the writer from which it goes to sleep, by how much it has tested already. */
  predicate PastConn(w: Writer) {
    w.SawConnOpen? || PastStream(w)
  }

  predicate PastStream(w: Writer) {
    w.SawStreamOpen? || w.SawWindow? || PastWindow(w)
  }

  predicate PastWindow(w: Writer) {
    w.Sleepy? || w.Asleep?
  }

  /** What each test found still holds, or the thread that changed it owes a broadcast. */
  ghost predicate WakeInv(c: Conn) {
    var w := c.writer;
    && (PastConn(w) && c.closed ==> c.closeOwes)
    && (PastStream(w) && w.k in c.ctxs && c.ctxs[w.k].state == Closed ==> Owes(c, w.k))
    && (w.SawWindow? && w.serverWin <= 0 < c.serverWindow ==> Owes(c, w.k))
    && (PastWindow(w) && w.k in c.ctxs && 0 < c.serverWindow && 0 < c.ctxs[w.k].window ==> Owes(c, w.k))
  }

  /** A writer that is not on its way to sleep has nothing to lose. */
  lemma AwakeHasWake(d: Conn)
    requires !PastConn(d.writer)
    ensures WakeInv(d)
  {
  }

  lemma WaitKeepsWake(c: Conn, s: WriteStep)
    requires ConnWindows.WriterOk(c.writer, c.ctxs, c.serverWindow) && WakeInv(c) && CanWrite(c, s)
    requires Waits(s)
    ensures WakeInv(c.(writer := Move(c, s)))
  {
  }

  predicate Waits(s: WriteStep) {
    s.WaitLock? || s.WaitState? || s.WaitLoadConn? || s.WaitLoadStream? || s.Sleep?
  }

  lemma MovingIsAwake(c: Conn, s: WriteStep)
    requires CanWrite(c, s) && Moves(s) && !Waits(s)
    ensures !PastConn(Move(c, s))
  {
  }

  lemma ActingIsAwake(c: Conn, s: WriteStep)
    requires CanWrite(c, s) && !Moves(s) && !s.Submit?
    ensures !PastConn(NextWrite(c, s).writer)
  {
  }

  lemma WriteKeepsWake(c: Conn, s: WriteStep)
    requires ConnWindows.WriterOk(c.writer, c.ctxs, c.serverWindow) && WakeInv(c) && CanWrite(c, s)
    ensures WakeInv(NextWrite(c, s))
  {
    if Waits(s) {
      WaitKeepsWake(c, s);
    } else if s.Submit? {
      StillKeepsWake(c, NextWrite(c, s));
    } else if Moves(s) {
      MovingIsAwake(c, s);
      AwakeHasWake(c.(writer := Move(c, s)));
    } else {
      ActingIsAwake(c, s);
      AwakeHasWake(NextWrite(c, s));
    }
  }

  /** A thread that still has its broadcast ahead may change windows and states at will. */
  lemma OwingKeepsWake(c: Conn, d: Conn)
    requires WakeInv(c) && d.writer == c.writer && d.closed == c.closed && d.closeOwes == c.closeOwes
    requires Works(c.writer) ==> Owes(d, c.writer.k)
    ensures WakeInv(d)
  {
  }

  /** Steps that keep every tested value where the writer found it. */
  lemma StillKeepsWake(c: Conn, d: Conn)
    requires WakeInv(c) && d.writer == c.writer && d.closed == c.closed && d.closeOwes == c.closeOwes
    requires d.serverWindow == c.serverWindow
    requires Works(c.writer) && c.writer.k in d.ctxs ==>
               && c.writer.k in c.ctxs
               && d.ctxs[c.writer.k].state == c.ctxs[c.writer.k].state
               && d.ctxs[c.writer.k].window == c.ctxs[c.writer.k].window
    requires Works(c.writer) && Owes(c, c.writer.k) ==> Owes(d, c.writer.k)
    ensures WakeInv(d)
  {
  }

  lemma AdoptKeepsWake(c: Conn, st: Settings)
    requires ConnWindows.Inv(c) && WakeInv(c) && c.reader.Ready?
    ensures WakeInv(Adopt(c, st))
  {
    var d := Adopt(c, st);
    if Delta(c, st) == 0 {
      StillKeepsWake(c, d);
    } else {
      OwingKeepsWake(c, d);
    }
  }

  lemma ReadKeepsWake(c: Conn, s: ReadStep)
    requires ConnWindows.Inv(c) && WakeInv(c) && CanRead(c, s)
    ensures WakeInv(NextRead(c, s))
  {
    var d := NextRead(c, s);
    match s
    case ConnWindowUpdate(inc) => OwingOrFailing(c, d);
    case StreamWindowUpdate(k, inc) => OwingKeepsWake(c, d);
    case ApplySettings(st) => AdoptKeepsWake(c, st);
    case RejectSettings(st, hit) => OwingOrFailing(c, d);
    case FrameError(k) => OwingKeepsWake(c, d);
    case FinishSwap(k) => OwingKeepsWake(c, d);
    case FinishTail => OwingKeepsWake(c, d);
    case GoAway(last) => StillKeepsWake(c, d);
    case ReadBroadcast => AwakeHasWake(d);
    case ReadError => OwingOrFailing(c, d);
    case ReadClose =>
  }

  /** The read loop is about to close the connection: it will broadcast, or whoever closed it first will. */
  lemma OwingOrFailing(c: Conn, d: Conn)
    requires WakeInv(c) && d.writer == c.writer && d.closed == c.closed && d.closeOwes == c.closeOwes
    requires d.reader.Failing? || d.reader.OwesBroadcast?
    ensures WakeInv(d)
  {
    if Works(c.writer) && (d.reader.OwesBroadcast? || !d.closed) {
      OwingKeepsWake(c, d);
    }
  }

  lemma CallKeepsWake(c: Conn, s: CallStep)
    requires ConnWindows.WriterOk(c.writer, c.ctxs, c.serverWindow) && WakeInv(c) && CanCall(c, s)
    ensures WakeInv(NextCall(c, s))
  {
    var d := NextCall(c, s);
    match s
    case CancelSwap(k) =>
      if Works(c.writer) && c.writer.k == k {
        OwingKeepsWake(c, d);
      } else {
        StillKeepsWake(c, d);
      }
    case CancelTail(k) =>
      if c.ctxs[k].id == 0 {
        StillKeepsWake(c, d);
      } else {
        OwingKeepsWake(c, d);
      }
    case CancelBroadcast => AwakeHasWake(d);
    case CloseSwap =>
    case CloseBroadcast => AwakeHasWake(d);
    case TellLook(_) => StillKeepsWake(c, d);
    case TellSend(_) => StillKeepsWake(c, d);
  }

  lemma {:induction false} RunKeepsWake(c: Conn, ss: seq<Step>, d: Conn)
    requires ConnWindows.Inv(c) && WakeInv(c) && Run(c, ss, d)
    ensures WakeInv(d)
    decreases |ss|
  {
    if ss != [] {
      var s := ss[0];
      ConnWindows.StepKeepsInv(c, s);
      match s {
        case Write(w) => WriteKeepsWake(c, w);
        case Read(r) => ReadKeepsWake(c, r);
        case Call(o) => CallKeepsWake(c, o);
      }
      RunKeepsWake(Next(c, s), ss[1..], d);
    }
  }

  /**
   No lost wake-up: in every reachable state, when the body writer is asleep, either it has
   reason to be (no chunk can be sent, and neither its stream nor the connection is closed)
   or another thread still owes the broadcast that wakes it.
   */
  lemma NoLostWakeUp(st: Settings, c: Conn)
    requires Reachable(st, c) && c.writer.Asleep?
    ensures c.writer.k in c.ctxs
    ensures
      var x := c.ctxs[c.writer.k];
      || (ChunkSize(c.writer.left, c.serverWindow, x.window, c.settings.maxFrame) == 0
          && x.state != Closed && !c.closed)
      || Owes(c, c.writer.k)
  {
    var ss :| Run(Init(st), ss, c);
    ConnWindows.ReachableInv(st, c);
    RunKeepsWake(Init(st), ss, c);
  }
}
