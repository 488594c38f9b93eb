/**
 What no thread of the connection machine ever waits for: apart from a sleeping writer and the two mutexes every
 thread can take its next step, in every reachable state, and the read loop takes every frame.
 */
module ConnProgress {
  import opened Int32
  import opened ConnMachine
  import ConnWindows
  import ConnLifecycle

  /** The writer's next step. */
  function NextStep(c: Conn): WriteStep
    requires Works(c.writer) && c.writer.k in c.ctxs
  {
    match c.writer
    case Opening(_, _, _) => OpenLoad
    case Loaded(_, _, _, _) => OpenCommit
    case Headers(_, _) => HeadersSent
    case Expecting(_, _) => ExpectTimeout
    case Returning(_, _) => ExpectReturn
    case Top(_, _) => if c.closed || c.ctxs[c.writer.k].state == Closed then GiveUp else LoadConn
    case GotConn(_, _, _, _) => LoadStream
    case Chosen(_, _, _) => Send
    case Sent(_, _, _) => DebitConn
    case Debited(_, _, _) => DebitStream
    case Waiting(_, _) => WaitLock
    case SawConnOpen(_, _) => WaitState
    case SawStreamOpen(_, _) => WaitLoadConn
    case SawWindow(_, _, _, _) => WaitLoadStream
    case Sleepy(_, _) => Sleep
    case Asleep(_, _) => Sleep
    case Telling(_, _) => TellErr
  }

  /** A writer that works on a request and is not asleep is never stuck. */
  lemma WriterGoesOn(st: Settings, c: Conn)
    requires Reachable(st, c) && Works(c.writer) && !c.writer.Asleep?
    ensures c.writer.k in c.ctxs && CanWrite(c, NextStep(c))
  {
    ConnWindows.ReachableInv(st, c);
  }

  /**
   The read loop takes whatever arrives: any increment, any settings, which it applies or rejects, any frame of a
   stream that is in the table and not closed; and once it has begun to finish a stream it can end it.
   */
  lemma ReaderGoesOn(st: Settings, c: Conn, inc: nat, next: Settings, k: nat)
    requires Reachable(st, c) && 0 < inc <= MAX && ValidSettings(next)
    ensures c.reader.Ready? ==>
              && CanRead(c, ConnWindowUpdate(inc)) && CanRead(c, GoAway(k)) && CanRead(c, ReadError)
              && (CanRead(c, ApplySettings(next)) != CanRead(c, RejectSettings(next, {})))
    ensures c.reader.Ready? && InTable(c, k) && c.ctxs[k].state != Closed ==>
              CanRead(c, StreamWindowUpdate(k, inc)) && CanRead(c, FrameError(k)) && CanRead(c, FinishSwap(k))
    ensures c.reader.Erred? ==> CanRead(c, FinishSwap(c.reader.k))
    ensures c.reader.Finishing? ==> CanRead(c, FinishTail)
    ensures c.reader.OwesBroadcast? && !HoldsWindowMu(c.writer) ==> CanRead(c, ReadBroadcast)
    ensures c.reader.Failing? ==> CanRead(c, ReadClose)
  {
    ConnLifecycle.ReachableLife(st, c);
    if c.reader.Erred? || c.reader.Finishing? {
      assert ConnLifecycle.InFinish(c.reader, c.reader.k);
    }
  }

  /** A request that is not closed can be cancelled, and a cancellation waits for nothing but the two mutexes. */
  lemma CancelGoesOn(st: Settings, c: Conn, k: nat)
    requires Reachable(st, c)
    ensures k in c.ctxs && c.ctxs[k].state != Closed ==> CanCall(c, CancelSwap(k))
    ensures k in c.cancelling && !HoldsMutexOf(c.writer, k) ==> CanCall(c, CancelTail(k))
    ensures c.cancelOwes > 0 && !HoldsWindowMu(c.writer) ==> CanCall(c, CancelBroadcast)
    ensures c.closeOwes && !HoldsWindowMu(c.writer) ==> CanCall(c, CloseBroadcast)
  {
    ConnLifecycle.ReachableLife(st, c);
  }

  /** A mutex is let go: the writer holds one for at most four of its own steps. */
  function Held(w: Writer): nat {
    match w
    case Opening(_, _, _) => 2
    case Loaded(_, _, _, _) => 1
    case SawConnOpen(_, _) => 4
    case SawStreamOpen(_, _) => 3
    case SawWindow(_, _, _, _) => 2
    case Sleepy(_, _) => 1
    case _ => 0
  }

  lemma MutexIsLetGo(st: Settings, c: Conn)
    requires Reachable(st, c) && (HoldsWindowMu(c.writer) || c.writer.Opening? || c.writer.Loaded?)
    ensures c.writer.k in c.ctxs && CanWrite(c, NextStep(c))
    ensures Held(NextWrite(c, NextStep(c)).writer) < Held(c.writer)
  {
    WriterGoesOn(st, c);
  }

  // ---- Chunks ----

  /** What a chunk may be: no more than is left, than a frame may hold, and than both windows. */
  predicate ChunkFits(n: nat, left: nat, serverWin: int, streamWin: int, maxFrame: nat) {
    n <= left && n <= serverWin && n <= streamWin && n <= if maxFrame == 0 then 16384 else maxFrame
  }

  /** The writer waits exactly if no byte fits, and else chooses the largest chunk that does. */
  lemma ChosenIsLargest(c: Conn, m: nat)
    requires CanWrite(c, LoadStream) && c.writer.left > 0
    ensures var w, d, win := c.writer, NextWrite(c, LoadStream).writer, c.ctxs[c.writer.k].window;
            && (d == Waiting(w.k, w.left) <==> !ChunkFits(1, w.left, w.serverWin, win, w.maxFrame))
            && (d.Chosen? ==>
                  && d.k == w.k && d.left == w.left && ChunkFits(d.chunk, w.left, w.serverWin, win, w.maxFrame)
                  && (ChunkFits(m, w.left, w.serverWin, win, w.maxFrame) ==> m <= d.chunk))
            && (d.Waiting? || d.Chosen?)
  {
  }
}
