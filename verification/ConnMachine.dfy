/**
 The HTTP/2 client connection as a step machine.

 Five kinds of thread act on one connection: the write loop, which opens streams and
 sends one request body at a time; the read loop, which takes one inbound frame at a
 time; any number of CancelStream calls; any number of Close calls; and any number of
 broadcasts of an error to the streams in the table. A step is one
 atomic load, swap, add or locked section, except where README.md says that a longer
 section is taken as one step.
 */
module ConnMachine {
  import opened Int32

  datatype StreamState = Idle | Open | HalfClosed | Closed

  /** The peer's parameters that this connection obeys. */
  datatype Settings = Settings(initialWindow: nat, maxFrame: nat, maxStreams: nat)

  /** What the SETTINGS decoder can produce. */
  predicate ValidSettings(st: Settings) {
    && st.initialWindow <= MAX
    && 0x4000 <= st.maxFrame <= 0xFF_FFFF
    && st.maxStreams <= 0xFFFF_FFFF
  }

  /**
   A request context. The fields after `inTable` are history. `counted`: the stream was put
   into the table and counted. `base`: the initial-window part of `window`. `missed`: changes
   of the initial window between its load and the store into the table. `openedAtZero`: the
   load found 0. `credit` and `debited`: WINDOW_UPDATE credit and bytes taken off. `decs`: how
   often the open-stream counter was decremented for this stream. `errCloses`: how often its
   Err channel was closed. `wins`: state swaps to closed that won. `errs`: times the read loop
   stored the closed state without a swap. `lost`: closed states that the open overwrote.
   */
  datatype Ctx = Ctx(
    id: nat,
    state: StreamState,
    window: int,
    inTable: bool,
    counted: bool,
    base: int,
    missed: int,
    openedAtZero: bool,
    credit: int,
    debited: int,
    decs: nat,
    errCloses: nat,
    wins: nat,
    errs: nat,
    lost: nat)

  const FreshCtx := Ctx(0, Idle, 0, false, false, 0, 0, false, 0, 0, 0, 0, 0, 0, 0)

  /**
   Where the write loop is. `k` is the context it works on, `left` the body bytes not
   yet framed. From Opening to Loaded it holds the context's mutex; in the five `Saw...`/`Sleepy` places it
   holds windowMu. Expecting: it waits for the answer to a 100-continue. Returning: it took a value
   from the Err channel there and will send it back. Telling: its write failed and it will send
   the error on Err. Stopped: the write loop has ended.
   */
  datatype Writer =
    | Free
    | Opening(k: nat, left: nat, limit: int)
    | Loaded(k: nat, left: nat, limit: int, win: nat)
    | Headers(k: nat, left: nat)
    | Expecting(k: nat, left: nat)
    | Returning(k: nat, left: nat)
    | Top(k: nat, left: nat)
    | GotConn(k: nat, left: nat, serverWin: int, maxFrame: nat)
    | Chosen(k: nat, left: nat, chunk: nat)
    | Sent(k: nat, left: nat, chunk: nat)
    | Debited(k: nat, left: nat, chunk: nat)
    | Waiting(k: nat, left: nat)
    | SawConnOpen(k: nat, left: nat)
    | SawStreamOpen(k: nat, left: nat)
    | SawWindow(k: nat, left: nat, serverWin: int, maxFrame: nat)
    | Sleepy(k: nat, left: nat)
    | Asleep(k: nat, left: nat)
    | Telling(k: nat, left: nat)
    | Stopped

  datatype Reader =
    | Ready
    | Erred(k: nat)
    | Finishing(k: nat, won: bool)
    | OwesBroadcast
    | Failing
    | Done

  /**
   `cancelling` holds the contexts whose CancelStream call won the state swap and has not
   run its tail; `cancelOwes` counts the calls left with only the broadcast to do. `tellers`
   holds the contexts that a broadcast of an error found in the table and has still to send to.
   The fields from `failed` on are history.
   */
  datatype Conn = Conn(
    ctxs: map<nat, Ctx>,
    writer: Writer,
    reader: Reader,
    cancelling: multiset<nat>,
    cancelOwes: nat,
    closed: bool,
    closeOwes: bool,
    tellers: multiset<nat>,
    serverWindow: int,
    settings: Settings,
    nextID: nat,
    openStreams: int,
    failed: bool,
    connCredit: int,
    connDebited: int,
    connSent: int,
    openedIds: seq<nat>,
    openedKeys: seq<nat>)

  /** The state after NewConn and the handshake's SETTINGS exchange. */
  function Init(st: Settings): Conn {
    Conn(map[], Free, Ready, multiset{}, 0, false, false, multiset{}, 65535, st, 1, 0, false, 0, 0, 0, [], [])
  }

  /** Steps of request submission and of the write loop. */
  datatype WriteStep =
    | Submit(k: nat)
    | OpenCheck(k: nat, body: nat)
    | OpenLoad
    | OpenCommit
    | HeadersSent
    | ExpectWait
    | ExpectTimeout
    | ExpectTake
    | ExpectReturn
    | WriteError
    | TellErr
    | GiveUp
    | LoadConn
    | LoadStream
    | Send
    | DebitConn
    | DebitStream
    | WaitLock
    | WaitState
    | WaitLoadConn
    | WaitLoadStream
    | Sleep

  /** Steps of the read loop. */
  datatype ReadStep =
    | ConnWindowUpdate(inc: nat)
    | StreamWindowUpdate(k: nat, inc: nat)
    | ApplySettings(st: Settings)
    | RejectSettings(st: Settings, hit: set<nat>)
    | FrameError(k: nat)
    | FinishSwap(k: nat)
    | FinishTail
    | ReadBroadcast
    | GoAway(last: nat)
    | ReadError
    | ReadClose

  /** Steps of CancelStream and Close calls and of broadcasts of an error. */
  datatype CallStep =
    | CancelSwap(k: nat)
    | CancelTail(k: nat)
    | CancelBroadcast
    | CloseSwap
    | CloseBroadcast
    | TellLook(k: nat)
    | TellSend(k: nat)

  datatype Step = Write(w: WriteStep) | Read(r: ReadStep) | Call(c: CallStep)

  function Min(a: int, b: int): int {
    if a <= b then a else b
  }

  /** calculateChunkSize, on the values it loaded. */
  function ChunkSize(left: nat, serverWin: int, streamWin: int, maxFrame: nat): (n: nat)
    ensures n <= left
    ensures n > 0 ==> n <= serverWin && n <= streamWin && n <= (if maxFrame == 0 then 16384 else maxFrame)
    ensures n == 0 <==> left == 0 || serverWin <= 0 || streamWin <= 0
    ensures n > 0 ==> n == left || n == serverWin || n == streamWin || n == (if maxFrame == 0 then 16384 else maxFrame)
  {
    var frame := if maxFrame <= 0 then 16384 else maxFrame;
    var win := Min(streamWin, serverWin);
    if win <= 0 then 0 else Min(Min(left, win), frame)
  }

  /** CanOpenStream: note the conversion of the peer's limit to int32. */
  predicate CanOpenStream(c: Conn) {
    c.nextID < MAX && c.openStreams < Wrap(c.settings.maxStreams)
  }

  predicate InTable(c: Conn, k: nat) {
    k in c.ctxs && c.ctxs[k].inTable
  }

  /** The frame's stream is known and not closed, so readStream handles it. */
  predicate Receives(c: Conn, k: nat) {
    c.reader == Ready && InTable(c, k) && c.ctxs[k].state != Closed
  }

  /** The write loop works on a context. */
  predicate Works(w: Writer) {
    !w.Free? && !w.Stopped?
  }

  predicate HoldsWindowMu(w: Writer) {
    w.SawConnOpen? || w.SawStreamOpen? || w.SawWindow? || w.Sleepy?
  }

  predicate HoldsMutexOf(w: Writer, k: nat) {
    (w.Opening? || w.Loaded?) && w.k == k
  }

  function Delta(c: Conn, st: Settings): int {
    Wrap(Wrap(st.initialWindow) - Wrap(c.settings.initialWindow))
  }

  function Shift(x: Ctx, delta: int): Ctx {
    x.(window := Add(x.window, delta), base := x.base + delta)
  }

  /** Every window in the table can take `delta` without passing the limit. */
  predicate AllFit(c: Conn, delta: int) {
    forall k | k in c.ctxs && c.ctxs[k].inTable :: c.ctxs[k].window + delta <= MAX
  }

  /** The streams in `hit` are in the table and can take `delta`. */
  predicate SomeFit(c: Conn, delta: int, hit: set<nat>) {
    forall k | k in hit :: k in c.ctxs && c.ctxs[k].inTable && c.ctxs[k].window + delta <= MAX
  }

  /** Body bytes chosen by the writer for `k` and not yet taken off `k`'s window. */
  function Pending(w: Writer, k: nat): nat {
    match w
    case Chosen(k', _, chunk) => if k == k' then chunk else 0
    case Sent(k', _, chunk) => if k == k' then chunk else 0
    case Debited(k', _, chunk) => if k == k' then chunk else 0
    case _ => 0
  }

  predicate CanWrite(c: Conn, s: WriteStep) {
    match s
    case Submit(k) => k !in c.ctxs
    case OpenCheck(k, _) =>
      c.writer.Free? && k in c.ctxs && c.ctxs[k].id == 0 && c.ctxs[k].state != Closed && CanOpenStream(c)
    case OpenLoad => c.writer.Opening? && c.writer.k in c.ctxs
    case OpenCommit => c.writer.Loaded? && c.writer.k in c.ctxs
    case HeadersSent => c.writer.Headers? && c.writer.k in c.ctxs
    case ExpectWait => c.writer.Headers? && c.writer.k in c.ctxs && c.writer.left > 0
    case ExpectTimeout => c.writer.Expecting? && c.writer.k in c.ctxs
    case ExpectTake => c.writer.Expecting? && c.writer.k in c.ctxs
    case ExpectReturn => c.writer.Returning? && c.writer.k in c.ctxs
    case WriteError => (c.writer.Headers? || c.writer.Chosen?) && c.writer.k in c.ctxs
    case TellErr => c.writer.Telling? && c.writer.k in c.ctxs
    case GiveUp => c.writer.Top? && c.writer.k in c.ctxs && (c.closed || c.ctxs[c.writer.k].state == Closed)
    case LoadConn => c.writer.Top? && c.writer.k in c.ctxs && !c.closed && c.ctxs[c.writer.k].state != Closed
    case LoadStream => c.writer.GotConn? && c.writer.k in c.ctxs
    case Send => c.writer.Chosen?
    case DebitConn => c.writer.Sent?
    case DebitStream => c.writer.Debited? && c.writer.k in c.ctxs && c.writer.chunk <= c.writer.left
    case WaitLock => c.writer.Waiting?
    case WaitState => c.writer.SawConnOpen? && c.writer.k in c.ctxs
    case WaitLoadConn => c.writer.SawStreamOpen?
    case WaitLoadStream => c.writer.SawWindow? && c.writer.k in c.ctxs
    case Sleep => c.writer.Sleepy?
  }

  predicate CanRead(c: Conn, s: ReadStep) {
    match s
    case ConnWindowUpdate(inc) => c.reader.Ready? && 0 < inc <= MAX
    case StreamWindowUpdate(k, inc) => Receives(c, k) && 0 < inc <= MAX
    case ApplySettings(st) =>
      c.reader.Ready? && ValidSettings(st) && AllFit(c, Delta(c, st))
    case RejectSettings(st, hit) =>
      c.reader.Ready? && ValidSettings(st) && !AllFit(c, Delta(c, st)) && SomeFit(c, Delta(c, st), hit)
    case FrameError(k) => Receives(c, k)
    case FinishSwap(k) => Receives(c, k) || (c.reader == Erred(k) && k in c.ctxs)
    case FinishTail => c.reader.Finishing? && c.reader.k in c.ctxs
    case ReadBroadcast => c.reader.OwesBroadcast? && !HoldsWindowMu(c.writer)
    case GoAway(last) => c.reader.Ready?
    case ReadError => c.reader.Ready?
    case ReadClose => c.reader.Failing?
  }

  predicate CanCall(c: Conn, s: CallStep) {
    match s
    case CancelSwap(k) => k in c.ctxs && c.ctxs[k].state != Closed
    case CancelTail(k) =>
      // the tail locks the context's mutex, which writeRequest holds while it opens the stream
      k in c.cancelling && k in c.ctxs && !HoldsMutexOf(c.writer, k)
    case CancelBroadcast => c.cancelOwes > 0 && !HoldsWindowMu(c.writer)
    case CloseSwap => !c.closed
    case CloseBroadcast => c.closeOwes && !HoldsWindowMu(c.writer)
    case TellLook(k) => InTable(c, k) && ((c.closed && !c.closeOwes) || c.writer.Stopped?)
    case TellSend(k) => k in c.tellers
  }

  // ---- The write loop ----

  function One(b: bool): nat {
    if b then 1 else 0
  }

  /** writeRequest stores the identifier and the open state, whatever the state was, and loads the initial window. */
  function Identify(c: Conn): Conn
    requires c.writer.Opening? && c.writer.k in c.ctxs
  {
    var w, x := c.writer, c.ctxs[c.writer.k];
    c.(ctxs := c.ctxs[w.k := x.(id := c.nextID, state := Open, missed := 0, lost := x.lost + One(x.state == Closed))],
       writer := Loaded(w.k, w.left, w.limit, c.settings.initialWindow),
       nextID := c.nextID + 2,
       openedIds := c.openedIds + [c.nextID])
  }

  /** The rest of writeRequest under the context's mutex: the window, the half-closed state, the table and the count. */
  function Commit(c: Conn): Conn
    requires c.writer.Loaded? && c.writer.k in c.ctxs
  {
    var w, x := c.writer, c.ctxs[c.writer.k];
    var y := x.(state := if w.left == 0 then HalfClosed else x.state,
                lost := x.lost + One(w.left == 0 && x.state == Closed),
                window := if 0 < w.win <= MAX then Wrap(w.win) else 65535,
                inTable := true, counted := true,
                base := w.win, openedAtZero := w.win == 0, credit := 0, debited := 0);
    c.(ctxs := c.ctxs[w.k := y],
       writer := Headers(w.k, w.left),
       openStreams := Add(c.openStreams, 1),
       openedKeys := c.openedKeys + [w.k])
  }

  /**
   writeRequest's error tail: delete the stream, swap its state, and count it out if the swap won. After a
   failed write the write loop goes on to send the error, after a body given up it takes the next request.
   */
  function Abandon(c: Conn): Conn
    requires (c.writer.Headers? || c.writer.Top? || c.writer.Chosen?) && c.writer.k in c.ctxs
  {
    var k, x := c.writer.k, c.ctxs[c.writer.k];
    var won := x.state != Closed;
    c.(writer := if c.writer.Top? then Free else Telling(k, c.writer.left),
       openStreams := if won then Add(c.openStreams, -1) else c.openStreams,
       ctxs := c.ctxs[k := x.(inTable := false, state := Closed, decs := x.decs + One(won), wins := x.wins + One(won))])
  }

  /** Steps of the write loop that only load values and move on. */
  predicate Moves(s: WriteStep) {
    || s.OpenCheck? || s.HeadersSent? || s.LoadConn? || s.LoadStream?
    || s.ExpectWait? || s.ExpectTimeout? || s.ExpectTake? || s.ExpectReturn? || s.TellErr?
    || s.WaitLock? || s.WaitState? || s.WaitLoadConn? || s.WaitLoadStream? || s.Sleep?
  }

  /** Where writeRequest goes when the body may be sent. */
  function ToBody(c: Conn): Writer
    requires Works(c.writer) && !c.writer.Opening? && !c.writer.Loaded? && c.writer.k in c.ctxs
  {
    var w := c.writer;
    if w.left == 0 || c.ctxs[w.k].state == Closed then Free else Top(w.k, w.left)
  }

  /** A send on a closed channel panics, which ends the write loop. */
  function Move(c: Conn, s: WriteStep): Writer
    requires Moves(s) && CanWrite(c, s)
  {
    var w := c.writer;
    match s
    case OpenCheck(k, body) => Opening(k, body, Wrap(c.settings.maxStreams))
    case HeadersSent => ToBody(c)
    case ExpectWait => Expecting(w.k, w.left)
    case ExpectTimeout => ToBody(c)
    case ExpectTake => Returning(w.k, w.left)
    case ExpectReturn => if c.ctxs[w.k].errCloses > 0 then Stopped else ToBody(c)
    case TellErr => Stopped
    case LoadConn => GotConn(w.k, w.left, c.serverWindow, c.settings.maxFrame)
    case LoadStream =>
      var n := ChunkSize(w.left, w.serverWin, c.ctxs[w.k].window, w.maxFrame);
      if n == 0 then Waiting(w.k, w.left) else Chosen(w.k, w.left, n)
    case WaitLock => if c.closed then Top(w.k, w.left) else SawConnOpen(w.k, w.left)
    case WaitState => if c.ctxs[w.k].state == Closed then Top(w.k, w.left) else SawStreamOpen(w.k, w.left)
    case WaitLoadConn => SawWindow(w.k, w.left, c.serverWindow, c.settings.maxFrame)
    case WaitLoadStream =>
      var n := ChunkSize(w.left, w.serverWin, c.ctxs[w.k].window, w.maxFrame);
      if n > 0 then Top(w.k, w.left) else Sleepy(w.k, w.left)
    case Sleep => Asleep(w.k, w.left)
  }

  /** The frame is written and flushed. */
  function SendFrame(c: Conn): Conn
    requires c.writer.Chosen?
  {
    var w := c.writer;
    c.(writer := Sent(w.k, w.left, w.chunk), connSent := c.connSent + w.chunk)
  }

  function TakeFromConn(c: Conn): Conn
    requires c.writer.Sent?
  {
    var w := c.writer;
    c.(writer := Debited(w.k, w.left, w.chunk),
       serverWindow := Add(c.serverWindow, 0 - w.chunk),
       connDebited := c.connDebited + w.chunk)
  }

  function TakeFromStream(c: Conn): Conn
    requires c.writer.Debited? && c.writer.k in c.ctxs && c.writer.chunk <= c.writer.left
  {
    var w := c.writer;
    var x := c.ctxs[w.k];
    c.(writer := if w.left == w.chunk then Free else Top(w.k, w.left - w.chunk),
       ctxs := c.ctxs[w.k := x.(window := Add(x.window, 0 - w.chunk), debited := x.debited + w.chunk)])
  }

  /** The condition variable's Broadcast. */
  function Woken(w: Writer): Writer {
    if w.Asleep? then Top(w.k, w.left) else w
  }

  // ---- The read loop ----

  /** updateServerWindow and the broadcast it leaves owed, or the connection error. */
  function GrowConn(c: Conn, inc: nat): Conn
  {
    if c.serverWindow + inc > MAX then
      c.(reader := Failing, failed := true)
    else
      c.(reader := OwesBroadcast,
         serverWindow := Add(c.serverWindow, inc),
         connCredit := c.connCredit + inc)
  }

  /** updateStreamWindow and the broadcast it leaves owed, or the stream error. */
  function GrowStream(c: Conn, k: nat, inc: nat): Conn
    requires k in c.ctxs
  {
    var x := c.ctxs[k];
    if x.window + inc > MAX then
      MarkErred(c, k)
    else
      c.(reader := OwesBroadcast,
         ctxs := c.ctxs[k := x.(window := Add(x.window, inc), credit := x.credit + inc)])
  }

  /** handleSettings when every window in the table can take the difference. */
  function Adopt(c: Conn, st: Settings): Conn
  {
    var d := Delta(c, st);
    c.(reader := if d == 0 then Ready else OwesBroadcast,
       settings := st,
       ctxs := map k | k in c.ctxs ::
                 if c.ctxs[k].inTable then Shift(c.ctxs[k], d)
                 else if c.writer.Loaded? && c.writer.k == k then c.ctxs[k].(missed := c.ctxs[k].missed + d)
                 else c.ctxs[k])
  }

  /** handleSettings when it stops at a window that cannot, having moved those in `hit`. */
  function Refuse(c: Conn, st: Settings, hit: set<nat>): Conn
  {
    var d := Delta(c, st);
    c.(reader := Failing,
       failed := true,
       ctxs := map k | k in c.ctxs :: if k in hit then Shift(c.ctxs[k], d) else c.ctxs[k])
  }

  /** readStream returned an error: the read loop marks the stream closed before it calls finish. */
  function MarkErred(c: Conn, k: nat): Conn
    requires k in c.ctxs
  {
    var x := c.ctxs[k];
    c.(reader := Erred(k), ctxs := c.ctxs[k := x.(state := Closed, errs := x.errs + One(x.state != Closed))])
  }

  /** The first line of finish. */
  function BeginFinish(c: Conn, k: nat): Conn
    requires k in c.ctxs
  {
    var x := c.ctxs[k];
    var won := x.state != Closed;
    c.(reader := Finishing(k, won),
       ctxs := c.ctxs[k := x.(state := Closed, wins := x.wins + One(won))])
  }

  /** The rest of finish up to its broadcast. */
  function EndFinish(c: Conn): Conn
    requires c.reader.Finishing? && c.reader.k in c.ctxs
  {
    var k, x := c.reader.k, c.ctxs[c.reader.k];
    c.(reader := OwesBroadcast,
       openStreams := if c.reader.won then Add(c.openStreams, -1) else c.openStreams,
       ctxs := c.ctxs[k := x.(inTable := false,
                              errCloses := x.errCloses + 1,
                              decs := x.decs + One(c.reader.won))])
  }

  /** purgeStreamsAfterID. */
  function Purge(c: Conn, last: nat): Conn {
    c.(ctxs := map k | k in c.ctxs :: c.ctxs[k].(inTable := c.ctxs[k].inTable && c.ctxs[k].id <= last))
  }

  // ---- CancelStream ----

  function BeginCancel(c: Conn, k: nat): Conn
    requires k in c.ctxs
  {
    c.(ctxs := c.ctxs[k := c.ctxs[k].(state := Closed, wins := c.ctxs[k].wins + 1)],
       cancelling := c.cancelling + multiset{k})
  }

  function EndCancel(c: Conn, k: nat): Conn
    requires k in c.ctxs
  {
    var x := c.ctxs[k];
    if x.id == 0 then
      c.(cancelling := c.cancelling - multiset{k})
    else
      c.(cancelling := c.cancelling - multiset{k},
         cancelOwes := c.cancelOwes + 1,
         openStreams := Add(c.openStreams, -1),
         ctxs := c.ctxs[k := x.(inTable := false, decs := x.decs + 1)])
  }

  // ---- The whole machine ----

  function NextWrite(c: Conn, s: WriteStep): Conn
    requires CanWrite(c, s)
  {
    if Moves(s) then c.(writer := Move(c, s)) else
    match s
    case Submit(k) => c.(ctxs := c.ctxs[k := FreshCtx])
    case OpenLoad => Identify(c)
    case OpenCommit => Commit(c)
    case WriteError => Abandon(c)
    case GiveUp => Abandon(c)
    case Send => SendFrame(c)
    case DebitConn => TakeFromConn(c)
    case DebitStream => TakeFromStream(c)
  }

  function NextRead(c: Conn, s: ReadStep): Conn
    requires CanRead(c, s)
  {
    match s
    case ConnWindowUpdate(inc) => GrowConn(c, inc)
    case StreamWindowUpdate(k, inc) => GrowStream(c, k, inc)
    case ApplySettings(st) => Adopt(c, st)
    case RejectSettings(st, hit) => Refuse(c, st, hit)
    case FrameError(k) => MarkErred(c, k)
    case FinishSwap(k) => BeginFinish(c, k)
    case FinishTail => EndFinish(c)
    case ReadBroadcast => c.(reader := Ready, writer := Woken(c.writer))
    case GoAway(last) => Purge(c, last)
    case ReadError => c.(reader := Failing, failed := true)
    case ReadClose => c.(reader := Done, closed := true, closeOwes := c.closeOwes || !c.closed)
  }

  function NextCall(c: Conn, s: CallStep): Conn
    requires CanCall(c, s)
  {
    match s
    case CancelSwap(k) => BeginCancel(c, k)
    case CancelTail(k) => EndCancel(c, k)
    case CancelBroadcast => c.(cancelOwes := c.cancelOwes - 1, writer := Woken(c.writer))
    case CloseSwap => c.(closed := true, closeOwes := true)
    case CloseBroadcast => c.(closeOwes := false, writer := Woken(c.writer))
    case TellLook(k) => c.(tellers := c.tellers + multiset{k})
    case TellSend(k) => c.(tellers := c.tellers - multiset{k})
  }

  predicate Enabled(c: Conn, s: Step) {
    match s
    case Write(w) => CanWrite(c, w)
    case Read(r) => CanRead(c, r)
    case Call(o) => CanCall(c, o)
  }

  function Next(c: Conn, s: Step): Conn
    requires Enabled(c, s)
  {
    match s
    case Write(w) => NextWrite(c, w)
    case Read(r) => NextRead(c, r)
    case Call(o) => NextCall(c, o)
  }

  /** `d` is the state after the steps `ss` from `c`. */
  ghost predicate Run(c: Conn, ss: seq<Step>, d: Conn)
    decreases |ss|
  {
    if ss == [] then c == d
    else Enabled(c, ss[0]) && Run(Next(c, ss[0]), ss[1..], d)
  }

  /** `d` occurs in some continuation of the run at `c`. */
  ghost predicate Leads(c: Conn, d: Conn) {
    exists ss :: Run(c, ss, d)
  }

  /** `c` occurs in some run of a connection whose handshake delivered `st`. */
  ghost predicate Reachable(st: Settings, c: Conn) {
    ValidSettings(st) && Leads(Init(st), c)
  }

  lemma Stays(c: Conn)
    ensures Leads(c, c)
  {
    assert Run(c, [], c);
  }

  lemma RunFirst(c: Conn, s: Step, ss: seq<Step>, d: Conn)
    requires Enabled(c, s) && Run(Next(c, s), ss, d)
    ensures Run(c, [s] + ss, d)
  {
    assert ([s] + ss)[1..] == ss;
  }

  lemma {:induction false} RunLeadsOn(c: Conn, ss: seq<Step>, d: Conn, e: Conn)
    requires Run(c, ss, d) && Leads(d, e)
    ensures Leads(c, e)
    decreases |ss|
  {
    if ss != [] {
      var later := Next(c, ss[0]);
      RunLeadsOn(later, ss[1..], d, e);
      var ts :| Run(later, ts, e);
      RunFirst(c, ss[0], ts, e);
    }
  }

  lemma LeadsOn(c: Conn, d: Conn, e: Conn)
    requires Leads(c, d) && Leads(d, e)
    ensures Leads(c, e)
  {
    var ss :| Run(c, ss, d);
    RunLeadsOn(c, ss, d, e);
  }

  /** A run may go on with any enabled step. */
  lemma GoesOn(c: Conn, d: Conn, s: Step)
    requires Leads(c, d) && Enabled(d, s)
    ensures Leads(c, Next(d, s))
  {
    var e := Next(d, s);
    Stays(e);
    RunFirst(d, s, [], e);
    LeadsOn(c, d, e);
  }

  lemma InitReachable(st: Settings)
    requires ValidSettings(st)
    ensures Reachable(st, Init(st))
  {
    Stays(Init(st));
  }

  lemma StepReachable(st: Settings, c: Conn, s: Step)
    requires Reachable(st, c) && Enabled(c, s)
    ensures Reachable(st, Next(c, s))
  {
    GoesOn(Init(st), c, s);
  }
}
