/**
 Request bodies over every run of the connection machine: no byte is lost or sent twice, a body is sent to its end
 unless it is given up, and a stream's state says whether its request has a body.
 */
module ConnBodies {
  import opened Int32
  import opened ConnMachine
  import opened ConnLedger
  import ConnWindows

  /** The writer has bytes of `k` ahead of it. */
  predicate Writing(w: Writer, k: nat) {
    Works(w) && w.k == k && !w.Telling?
  }

  /** What was sent and what is left make up the body; a chunk is left until it is debited. */
  predicate BodyOk(l: Ledger, w: Writer, k: nat, counted: bool) {
    if Writing(w, k) then
      At(l.sentOn, k) + w.left == At(l.body, k) + Flight(w, k) && (!counted ==> At(l.sentOn, k) == 0)
    else if counted then k in l.abandoned || At(l.sentOn, k) == At(l.body, k)
    else At(l.sentOn, k) == 0
  }

  /** An open stream has a body and a half-closed one has none. */
  predicate StateOk(l: Ledger, w: Writer, k: nat, x: Ctx) {
    && (x.counted && x.state != Closed ==> x.state == if At(l.body, k) == 0 then HalfClosed else Open)
    && (w.Loaded? && w.k == k ==> x.state == Open || x.state == Closed)
  }

  function CountedAt(c: Conn, k: nat): bool {
    k in c.ctxs && c.ctxs[k].counted
  }

  ghost predicate BodiesOk(c: Conn, l: Ledger) {
    && (forall k: nat :: BodyOk(l, c.writer, k, CountedAt(c, k)))
    && (forall k | k in c.ctxs :: StateOk(l, c.writer, k, c.ctxs[k]))
  }

  // ---- Steps that leave bodies alone ----

  predicate MayClose(x: Ctx, y: Ctx) {
    y.counted == x.counted && (y.state == x.state || y.state == Closed)
  }

  /** Contexts may be closed, and a sleeping writer may wake. */
  ghost predicate Aside(c: Conn, d: Conn) {
    && d.ctxs.Keys == c.ctxs.Keys && (forall k | k in c.ctxs :: MayClose(c.ctxs[k], d.ctxs[k]))
    && (d.writer == c.writer || d.writer == Woken(c.writer))
  }

  predicate SameBodies(l: Ledger, m: Ledger) {
    m.sentOn == l.sentOn && m.body == l.body && m.abandoned == l.abandoned
  }

  lemma AsideKeepsBodies(c: Conn, d: Conn, l: Ledger, m: Ledger)
    requires BodiesOk(c, l) && Aside(c, d) && SameBodies(l, m)
    ensures BodiesOk(d, m)
  {
    forall k: nat
      ensures BodyOk(m, d.writer, k, CountedAt(d, k))
    {
      assert BodyOk(l, c.writer, k, CountedAt(c, k)) && (k in c.ctxs ==> MayClose(c.ctxs[k], d.ctxs[k]));
    }
    forall k | k in d.ctxs
      ensures StateOk(m, d.writer, k, d.ctxs[k])
    {
      assert StateOk(l, c.writer, k, c.ctxs[k]) && MayClose(c.ctxs[k], d.ctxs[k]);
    }
  }

  lemma AllAside(c: Conn, d: Conn)
    requires d.ctxs.Keys == c.ctxs.Keys && d.writer == c.writer
    requires forall k | k in c.ctxs :: d.ctxs[k].counted == c.ctxs[k].counted && d.ctxs[k].state == c.ctxs[k].state
    ensures Aside(c, d)
  {
  }

  lemma OneAside(c: Conn, d: Conn, k: nat)
    requires k in c.ctxs && k in d.ctxs && d.ctxs == c.ctxs[k := d.ctxs[k]] && MayClose(c.ctxs[k], d.ctxs[k])
    requires d.writer == c.writer
    ensures Aside(c, d)
  {
  }

  lemma ReadAside(c: Conn, s: ReadStep)
    requires CanRead(c, s)
    ensures Aside(c, NextRead(c, s))
  {
    match s
    case ConnWindowUpdate(inc) => assert NextRead(c, s).ctxs == c.ctxs;
    case StreamWindowUpdate(k, inc) => OneAside(c, GrowStream(c, k, inc), k);
    case ApplySettings(st) => AllAside(c, Adopt(c, st));
    case RejectSettings(st, hit) => AllAside(c, Refuse(c, st, hit));
    case FrameError(k) => OneAside(c, MarkErred(c, k), k);
    case FinishSwap(k) => OneAside(c, BeginFinish(c, k), k);
    case FinishTail => OneAside(c, EndFinish(c), c.reader.k);
    case GoAway(last) => AllAside(c, Purge(c, last));
    case ReadBroadcast =>
    case ReadError =>
    case ReadClose =>
  }

  lemma CallAside(c: Conn, s: CallStep)
    requires CanCall(c, s)
    ensures Aside(c, NextCall(c, s))
  {
    if s.CancelSwap? {
      OneAside(c, BeginCancel(c, s.k), s.k);
    } else if s.CancelTail? {
      assert EndCancel(c, s.k).ctxs == c.ctxs[s.k := EndCancel(c, s.k).ctxs[s.k]];
      OneAside(c, EndCancel(c, s.k), s.k);
    }
  }

  lemma ReadPosts(l: Ledger, r: Reader, serverWindow: int, window: int, s: ReadStep)
    ensures SameBodies(l, PostRead(l, r, serverWindow, window, s))
  {
  }

  lemma CallPosts(l: Ledger, s: CallStep)
    ensures SameBodies(l, PostCall(l, s))
  {
  }

  // ---- Steps of the writer ----

  /** Only `k` is concerned. */
  lemma OneBody(c: Conn, d: Conn, l: Ledger, m: Ledger, k: nat)
    requires BodiesOk(c, l) && BodyOk(m, d.writer, k, CountedAt(d, k))
    requires k in d.ctxs ==> StateOk(m, d.writer, k, d.ctxs[k])
    requires forall j: nat | j != k :: CountedAt(d, j) == CountedAt(c, j)
    requires forall j: nat | j != k :: !Writing(d.writer, j) && !Writing(c.writer, j)
    requires forall j: nat | j != k && j in d.ctxs :: j in c.ctxs && d.ctxs[j] == c.ctxs[j]
    requires forall j: nat | j != k :: At(m.sentOn, j) == At(l.sentOn, j) && At(m.body, j) == At(l.body, j)
    requires l.abandoned <= m.abandoned
    ensures BodiesOk(d, m)
  {
    forall j: nat
      ensures BodyOk(m, d.writer, j, CountedAt(d, j))
    {
      assert BodyOk(l, c.writer, j, CountedAt(c, j));
    }
    forall j | j in d.ctxs
      ensures StateOk(m, d.writer, j, d.ctxs[j])
    {
      if j != k {
        assert StateOk(l, c.writer, j, c.ctxs[j]) && !Writing(d.writer, j);
      }
    }
  }

  lemma SubmitBody(c: Conn, l: Ledger, k: nat)
    requires BodiesOk(c, l) && k !in c.ctxs && !Writing(c.writer, k)
    requires Works(c.writer) ==> c.writer.k in c.ctxs
    ensures BodiesOk(c.(ctxs := c.ctxs[k := FreshCtx]), l)
  {
    var d := c.(ctxs := c.ctxs[k := FreshCtx]);
    forall j: nat
      ensures BodyOk(l, d.writer, j, CountedAt(d, j))
    {
      assert BodyOk(l, c.writer, j, CountedAt(c, j));
    }
  }

  /** Moves after which the writer may be done with its stream. */
  predicate MayEnd(s: WriteStep) {
    s.HeadersSent? || s.ExpectTimeout? || s.ExpectReturn? || s.TellErr?
  }

  lemma StayingMove(c: Conn, l: Ledger, s: WriteStep)
    requires CanWrite(c, s) && Moves(s) && !s.OpenCheck? && !MayEnd(s)
    ensures var w := Move(c, s);
            && Works(c.writer) && Works(w) && w.k == c.writer.k && w.left == c.writer.left
            && !w.Telling? && !w.Loaded? && !c.writer.Telling?
    ensures forall j: nat :: Flight(Move(c, s), j) == 0 && Flight(c.writer, j) == 0
    ensures PostWrite(l, c.writer, Gone(c, s), s) == l
  {
  }

  lemma StayBody(c: Conn, l: Ledger, s: WriteStep)
    requires ConnWindows.Inv(c) && BodiesOk(c, l) && CanWrite(c, s) && Moves(s) && !s.OpenCheck? && !MayEnd(s)
    ensures BodiesOk(c.(writer := Move(c, s)), l)
  {
    StayingMove(c, l, s);
    var k, w := c.writer.k, Move(c, s);
    assert BodyOk(l, c.writer, k, CountedAt(c, k)) && StateOk(l, c.writer, k, c.ctxs[k]);
    OneBody(c, c.(writer := w), l, l, k);
  }

  /** The writer goes on with the body, or leaves a stream with nothing left, or one that is given up. */
  lemma EndingMove(c: Conn, l: Ledger, s: WriteStep)
    requires CanWrite(c, s) && MayEnd(s)
    ensures var w, v, m := c.writer, Move(c, s), PostWrite(l, c.writer, Gone(c, s), s);
            && Works(w) && w.k in c.ctxs && (v.Free? || v.Stopped? || (v == Top(w.k, w.left) && !w.Telling?))
            && (m == l || m == l.(abandoned := l.abandoned + {w.k}))
            && (!v.Top? && !w.Telling? ==> w.k in m.abandoned || w.left == 0)
    ensures forall j: nat :: Flight(c.writer, j) == 0
  {
  }

  lemma EndBody(c: Conn, l: Ledger, s: WriteStep)
    requires ConnWindows.Inv(c) && BodiesOk(c, l) && CanWrite(c, s) && MayEnd(s)
    ensures BodiesOk(c.(writer := Move(c, s)), PostWrite(l, c.writer, Gone(c, s), s))
  {
    EndingMove(c, l, s);
    LeaveBody(c, l, Move(c, s), PostWrite(l, c.writer, Gone(c, s), s));
  }

  lemma LeaveBody(c: Conn, l: Ledger, v: Writer, m: Ledger)
    requires BodiesOk(c, l) && Works(c.writer) && c.writer.k in c.ctxs && Flight(c.writer, c.writer.k) == 0
    requires v.Free? || v.Stopped? || (v == Top(c.writer.k, c.writer.left) && !c.writer.Telling?)
    requires m == l || m == l.(abandoned := l.abandoned + {c.writer.k})
    requires !v.Top? && !c.writer.Telling? ==> c.writer.k in m.abandoned || c.writer.left == 0
    ensures BodiesOk(c.(writer := v), m)
  {
    var k := c.writer.k;
    assert BodyOk(l, c.writer, k, CountedAt(c, k)) && StateOk(l, c.writer, k, c.ctxs[k]);
    OneBody(c, c.(writer := v), l, m, k);
  }

  /** A move of the writer on the stream it works on. */
  lemma MoveBody(c: Conn, l: Ledger, s: WriteStep)
    requires ConnWindows.Inv(c) && BodiesOk(c, l) && CanWrite(c, s) && Moves(s) && !s.OpenCheck?
    ensures BodiesOk(c.(writer := Move(c, s)), PostWrite(l, c.writer, Gone(c, s), s))
  {
    if MayEnd(s) {
      EndBody(c, l, s);
    } else {
      StayingMove(c, l, s);
      StayBody(c, l, s);
    }
  }

  lemma CheckBody(c: Conn, l: Ledger, k: nat, body: nat, limit: int)
    requires ConnWindows.Inv(c) && BodiesOk(c, l) && c.writer.Free? && k in c.ctxs && c.ctxs[k].id == 0
    ensures BodiesOk(c.(writer := Opening(k, body, limit)), l.(body := l.body[k := body]))
  {
    assert BodyOk(l, c.writer, k, CountedAt(c, k));
    OneBody(c, c.(writer := Opening(k, body, limit)), l, l.(body := l.body[k := body]), k);
  }

  lemma OpenBody(c: Conn, l: Ledger)
    requires ConnWindows.Inv(c) && BodiesOk(c, l)
    ensures c.writer.Opening? ==> BodiesOk(Identify(c), PostWrite(l, c.writer, false, OpenLoad))
    ensures c.writer.Loaded? ==> BodiesOk(Commit(c), PostWrite(l, c.writer, false, OpenCommit))
  {
    if c.writer.Opening? || c.writer.Loaded? {
      var k := c.writer.k;
      assert BodyOk(l, c.writer, k, CountedAt(c, k)) && StateOk(l, c.writer, k, c.ctxs[k]);
      if c.writer.Opening? {
        OneBody(c, Identify(c), l, PostWrite(l, c.writer, false, OpenLoad), k);
      } else {
        OneBody(c, Commit(c), l, PostWrite(l, c.writer, false, OpenCommit), k);
      }
    }
  }

  lemma FailBody(c: Conn, l: Ledger, m: Ledger)
    requires ConnWindows.Inv(c) && BodiesOk(c, l) && (c.writer.Headers? || c.writer.Top? || c.writer.Chosen?)
    requires m == l.(table := m.table, abandoned := l.abandoned + {c.writer.k})
    ensures BodiesOk(Abandon(c), m)
  {
    OneBody(c, Abandon(c), l, m, c.writer.k);
  }

  lemma SendBody(c: Conn, l: Ledger)
    requires ConnWindows.Inv(c) && BodiesOk(c, l) && c.writer.Chosen?
    ensures BodiesOk(SendFrame(c), PostWrite(l, c.writer, false, Send))
  {
    var k := c.writer.k;
    assert BodyOk(l, c.writer, k, CountedAt(c, k)) && StateOk(l, c.writer, k, c.ctxs[k]);
    OneBody(c, SendFrame(c), l, PostWrite(l, c.writer, false, Send), k);
  }

  lemma SentBody(c: Conn, l: Ledger)
    requires ConnWindows.Inv(c) && BodiesOk(c, l) && c.writer.Sent?
    ensures BodiesOk(TakeFromConn(c), PostWrite(l, c.writer, false, DebitConn))
  {
    var k := c.writer.k;
    assert BodyOk(l, c.writer, k, CountedAt(c, k)) && StateOk(l, c.writer, k, c.ctxs[k]);
    OneBody(c, TakeFromConn(c), l, PostWrite(l, c.writer, false, DebitConn), k);
  }

  lemma DebitBody(c: Conn, l: Ledger)
    requires ConnWindows.Inv(c) && BodiesOk(c, l) && CanWrite(c, DebitStream)
    ensures BodiesOk(TakeFromStream(c), PostWrite(l, c.writer, false, DebitStream))
  {
    var k := c.writer.k;
    assert BodyOk(l, c.writer, k, CountedAt(c, k)) && StateOk(l, c.writer, k, c.ctxs[k]);
    OneBody(c, TakeFromStream(c), l, PostWrite(l, c.writer, false, DebitStream), k);
  }

  lemma WriteBody(c: Conn, l: Ledger, s: WriteStep)
    requires ConnWindows.Inv(c) && BodiesOk(c, l) && CanWrite(c, s)
    ensures BodiesOk(NextWrite(c, s), PostWrite(l, c.writer, Gone(c, s), s))
  {
    if s.OpenCheck? {
      CheckBody(c, l, s.k, s.body, Wrap(c.settings.maxStreams));
    } else if Moves(s) {
      MoveBody(c, l, s);
    } else if s.Submit? {
      SubmitBody(c, l, s.k);
    } else if s.OpenLoad? || s.OpenCommit? {
      OpenBody(c, l);
    } else if s.WriteError? || s.GiveUp? {
      FailBody(c, l, PostWrite(l, c.writer, Gone(c, s), s));
    } else if s.DebitStream? {
      DebitBody(c, l);
    } else if s.Send? {
      SendBody(c, l);
    } else {
      SentBody(c, l);
    }
  }

  lemma StepBody(c: Conn, l: Ledger, s: Step, d: Conn, m: Ledger)
    requires ConnWindows.Inv(c) && BodiesOk(c, l) && Enabled(c, s) && d == Next(c, s) && m == Post(l, c, s)
    ensures BodiesOk(d, m)
  {
    if s.Write? {
      WriteBody(c, l, s.w);
    } else if s.Read? {
      var window := if s.r.StreamWindowUpdate? && s.r.k in c.ctxs then c.ctxs[s.r.k].window else 0;
      ReadPosts(l, c.reader, c.serverWindow, window, s.r);
      ReadAside(c, s.r);
      AsideKeepsBodies(c, d, l, m);
    } else {
      CallPosts(l, s.c);
      CallAside(c, s.c);
      AsideKeepsBodies(c, d, l, m);
    }
  }

  lemma {:induction false} RunBody(c: Conn, l: Ledger, ss: seq<Step>, d: Conn)
    requires ConnWindows.Inv(c) && BodiesOk(c, l) && Run(c, ss, d)
    ensures BodiesOk(d, Account(l, c, ss))
    decreases |ss|
  {
    if ss != [] {
      var e, m := Next(c, ss[0]), Post(l, c, ss[0]);
      StepBody(c, l, ss[0], e, m);
      ConnWindows.StepKeepsInv(c, ss[0]);
      RunBody(e, m, ss[1..], d);
    }
  }

  /**
   Bodies are conserved: of the stream the writer works on, what was sent and what is left make up the body; every
   other opened stream's body was sent to its end, or given up. And a stream that is not closed is half-closed
   exactly if its request has no body.
   */
  lemma BodiesAreConserved(st: Settings, ss: seq<Step>, c: Conn, l: Ledger, k: nat)
    requires ValidSettings(st) && Run(Init(st), ss, c) && l == Account(Blank(st), Init(st), ss)
    requires k in c.ctxs && c.ctxs[k].counted
    ensures if Writing(c.writer, k) then At(l.sentOn, k) + c.writer.left == At(l.body, k) + Flight(c.writer, k)
            else k in l.abandoned || At(l.sentOn, k) == At(l.body, k)
    ensures c.ctxs[k].state != Closed ==> c.ctxs[k].state == if At(l.body, k) == 0 then HalfClosed else Open
  {
    RunBody(Init(st), Blank(st), ss, c);
    assert BodyOk(l, c.writer, k, CountedAt(c, k)) && StateOk(l, c.writer, k, c.ctxs[k]);
  }
}
