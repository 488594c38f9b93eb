/**
 How many body writers the connection window tolerates. calculateChunkSize reads the
 window and the debit comes after the write, so two writers can spend the same credit.
 Here `n` writers share the connection window; stream windows and frame limits are
 whatever each writer finds when it chooses.
 */
module CreditByWriters {
  import ConnMachine

  datatype Phase = Looping | Chosen(chunk: nat) | Sent(chunk: nat)

  datatype Shared = Shared(serverWindow: int, credit: nat, sent: nat, writers: seq<Phase>)

  datatype Step =
    | Choose(i: nat, left: nat, streamWin: int, maxFrame: nat)
    | Write(i: nat)
    | Debit(i: nat)
    | Grow(inc: nat)

  function Init(n: nat): Shared {
    Shared(65535, 0, 0, seq(n, _ => Looping))
  }

  function Chunk(c: Shared, s: Step): nat
    requires s.Choose?
  {
    ConnMachine.ChunkSize(s.left, c.serverWindow, s.streamWin, s.maxFrame)
  }

  predicate Enabled(c: Shared, s: Step) {
    match s
    case Choose(i, _, _, _) => i < |c.writers| && c.writers[i].Looping? && Chunk(c, s) > 0
    case Write(i) => i < |c.writers| && c.writers[i].Chosen?
    case Debit(i) => i < |c.writers| && c.writers[i].Sent?
    case Grow(inc) => inc > 0
  }

  function Next(c: Shared, s: Step): Shared
    requires Enabled(c, s)
  {
    match s
    case Choose(i, _, _, _) => c.(writers := c.writers[i := Chosen(Chunk(c, s))])
    case Write(i) =>
      c.(writers := c.writers[i := Sent(c.writers[i].chunk)], sent := c.sent + c.writers[i].chunk)
    case Debit(i) =>
      c.(writers := c.writers[i := Looping], serverWindow := c.serverWindow - c.writers[i].chunk)
    case Grow(inc) => c.(serverWindow := c.serverWindow + inc, credit := c.credit + inc)
  }

  ghost predicate Run(c: Shared, ss: seq<Step>, d: Shared)
    decreases |ss|
  {
    if ss == [] then c == d else Enabled(c, ss[0]) && Run(Next(c, ss[0]), ss[1..], d)
  }

  /** Every interleaving of `n` writers stays within the credit. */
  ghost predicate Safe(n: nat) {
    forall ss, c | Run(Init(n), ss, c) :: c.sent <= 65535 + c.credit
  }

  function Unsettled(w: Phase): nat {
    if w.Sent? then w.chunk else 0
  }

  function Promised(w: Phase): nat {
    if w.Looping? then 0 else w.chunk
  }

  ghost predicate SoloInv(c: Shared) {
    && |c.writers| <= 1
    && (c.writers == [] ==> c.sent + c.serverWindow == 65535 + c.credit && c.serverWindow >= 0)
    && (|c.writers| == 1 ==>
          && c.sent - Unsettled(c.writers[0]) + c.serverWindow == 65535 + c.credit
          && Promised(c.writers[0]) <= c.serverWindow)
  }

  lemma {:induction false} SoloRun(c: Shared, ss: seq<Step>, d: Shared)
    requires SoloInv(c) && Run(c, ss, d)
    ensures SoloInv(d)
    decreases |ss|
  {
    if ss != [] {
      SoloRun(Next(c, ss[0]), ss[1..], d);
    }
  }

  /** Writers 0 and 1 both read a window of 65535 before either debits it. */
  lemma TwoOverspend(n: nat)
    requires n >= 2
    ensures !Safe(n)
  {
    var pick0, pick1 := Choose(0, 65535, 65535, 0xFF_FFFF), Choose(1, 65535, 65535, 0xFF_FFFF);
    var c0 := Init(n);
    var c1 := Next(c0, pick0);
    var c2 := Next(c1, pick1);
    var c3 := Next(c2, Write(0));
    var c4 := Next(c3, Write(1));
    assert Run(c4, [], c4);
    assert Run(c3, [Write(1)], c4) by { assert [Write(1)][1..] == []; }
    assert Run(c2, [Write(0), Write(1)], c4) by { assert [Write(0), Write(1)][1..] == [Write(1)]; }
    assert Run(c1, [pick1, Write(0), Write(1)], c4) by {
      assert [pick1, Write(0), Write(1)][1..] == [Write(0), Write(1)];
    }
    assert Run(c0, [pick0, pick1, Write(0), Write(1)], c4) by {
      assert [pick0, pick1, Write(0), Write(1)][1..] == [pick1, Write(0), Write(1)];
    }
    assert c4.sent == 131070 && c4.credit == 0;
  }

  /** The connection credit is safe for every interleaving if and only if there is at most one writer. */
  lemma SafeExactlyForOneWriter(n: nat)
    ensures Safe(n) <==> n <= 1
  {
    if n <= 1 {
      forall ss, c | Run(Init(n), ss, c)
        ensures c.sent <= 65535 + c.credit
      {
        SoloRun(Init(n), ss, c);
      }
    } else {
      TwoOverspend(n);
    }
  }
}
