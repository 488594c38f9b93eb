/**
 The client's connection pool under interleaving: every locked section of Get, Put and Discard is one
 step, and between the sections of a Get other callers run. Close is never called, and a caller returns
 each connection it got once, for the address it got it for.
 */
module Pool {
  import opened Common

  type Addr = string
  type Conn = nat

  /**
   One host's pool and the callers' side of it: idle connections, the count, connections taken out to be
   checked, dials under way, and connections that callers hold.
   */
  datatype Host = Host(conns: seq<Conn>, count: int, checking: set<Conn>, dialing: nat, held: set<Conn>)

  const NO_HOST := Host([], 0, {}, 0, {})

  /** All hosts, the connections dialed so far, and the connections closed, in order. */
  datatype Pools = Pools(hosts: map<Addr, Host>, dialed: set<Conn>, closed: seq<Conn>)

  const INIT := Pools(map[], {}, [])

  function At(s: Pools, a: Addr): Host {
    if a in s.hosts then s.hosts[a] else NO_HOST
  }

  // ---- The locked section of Get ----

  /** The `n` idle connections that were used last, most recent first: the ones that are popped. */
  function Popped(conns: seq<Conn>, n: nat): (r: seq<Conn>)
    requires n <= |conns|
    ensures |r| == n
  {
    if n == 0 then [] else [conns[|conns| - 1]] + Popped(conns[..|conns| - 1], n - 1)
  }

  /** What a step does to its host: the new host, the connections closed, and the connections dialed. */
  datatype Effect = Effect(host: Host, closed: seq<Conn>, added: set<Conn>)

  /**
   The loop of Get with the lock held: `evict` idle connections are expired, then the next one is taken out to
   be checked; without one a dial starts if the host has room, else the caller is refused.
   */
  function Pick(h: Host, evict: nat, max: int): Effect
    requires evict <= |h.conns|
  {
    var n := |h.conns| - evict;
    var closed := Popped(h.conns, evict);
    var count := h.count - evict;
    if n > 0 then
      Effect(h.(conns := h.conns[..n - 1], count := count, checking := h.checking + {h.conns[n - 1]}), closed, {})
    else if max > 0 && count >= max then Effect(h.(conns := [], count := count), closed, {})
    else Effect(h.(conns := [], count := count + 1, dialing := h.dialing + 1), closed, {})
  }

  /** What a caller leaves the locked section of Get with. */
  datatype Got = ToCheck(c: Conn) | ToDial | Refused

  function Handed(h: Host, got: Got): Host {
    match got
    case ToCheck(c) => h.(checking := h.checking + {c})
    case ToDial => h.(dialing := h.dialing + 1)
    case Refused => h
  }

  /** The idle list and count of a host, as the pop loop changes them in place. */
  class HostPool {
    var conns: seq<Conn>
    var count: int

    constructor (cs: seq<Conn>, n: int)
      ensures conns == cs && count == n
    {
      conns, count := cs, n;
    }

    /**
     Pops idle connections, the latest first, closing those that `expired` marks, up to the first one that is
     not; how long a connection has been idle is the clock's business.
     */
    method PopIdle(expired: Conn -> bool) returns (c: Option<Conn>, closed: seq<Conn>)
      modifies this
      ensures |closed| <= |old(conns)| && closed == Popped(old(conns), |closed|)
      ensures forall i | 0 <= i < |closed| :: expired(closed[i])
      ensures count == old(count) - |closed|
      ensures c.None? ==> conns == [] && |closed| == |old(conns)|
      ensures c.Some? ==> |closed| < |old(conns)| && old(conns)[..|old(conns)| - |closed|] == conns + [c.value]
      ensures c.Some? ==> !expired(c.value)
    {
      closed := [];
      while |conns| > 0
        invariant |closed| <= |old(conns)| && conns == old(conns)[..|old(conns)| - |closed|]
        invariant closed == Popped(old(conns), |closed|) && count == old(count) - |closed|
        invariant forall i | 0 <= i < |closed| :: expired(closed[i])
        decreases |conns|
      {
        var ic := conns[|conns| - 1];
        ghost var before := conns;
        conns := conns[..|conns| - 1];
        if expired(ic) {
          count := count - 1;
          PoppedSnoc(old(conns), |closed|);
          closed := closed + [ic];
          continue;
        }
        assert before == conns + [ic];
        return Some(ic), closed;
      }
      c := None;
    }

    /** Get up to where it lets go of the lock, on the host `h`: as many connections as were closed are evicted. */
    method PickLocked(expired: Conn -> bool, max: int, ghost h: Host) returns (got: Got, closed: seq<Conn>)
      requires h.conns == conns && h.count == count
      modifies this
      ensures |closed| <= |h.conns|
      ensures Pick(h, |closed|, max) == Effect(Handed(h.(conns := conns, count := count), got), closed, {})
      ensures forall i | 0 <= i < |closed| :: expired(closed[i])
      ensures got.ToCheck? ==> !expired(got.c)
    {
      var c;
      c, closed := PopIdle(expired);
      ghost var n := |h.conns| - |closed|;
      if c.Some? {
        assert h.conns[..n][..n - 1] == conns && h.conns[..n][n - 1] == c.value;
        assert h.conns[..n - 1] == h.conns[..n][..n - 1];
        return ToCheck(c.value), closed;
      }
      if max > 0 && count >= max {
        return Refused, closed;
      }
      count := count + 1;
      got := ToDial;
    }
  }

  lemma {:induction false} PoppedSnoc(conns: seq<Conn>, n: nat)
    requires n < |conns|
    ensures Popped(conns, n + 1) == Popped(conns, n) + [conns[|conns| - 1 - n]]
    decreases n
  {
    if n > 0 {
      PoppedSnoc(conns[..|conns| - 1], n - 1);
    }
  }

  // ---- Steps ----

  datatype Step =
    | GetLock(addr: Addr, evict: nat)
    | HealthOk(addr: Addr, c: Conn)
    | HealthBad(addr: Addr, c: Conn, evict: nat)
    | DialOk(addr: Addr, c: Conn)
    | DialFail(addr: Addr)
    | Put(addr: Addr, c: Conn, healthy: bool)
    | Discard(addr: Addr, c: Conn)

  predicate Enabled(s: Pools, step: Step) {
    var h := At(s, step.addr);
    match step
    case GetLock(_, evict) => evict <= |h.conns|
    case HealthOk(_, c) => c in h.checking
    case HealthBad(_, c, evict) => c in h.checking && evict <= |h.conns|
    case DialOk(_, c) => h.dialing > 0 && c !in s.dialed
    case DialFail(_) => h.dialing > 0
    case Put(_, c, _) => c in h.held
    case Discard(_, c) => c in h.held
  }

  function ReleaseChecked(h: Host, c: Conn): Host {
    h.(count := h.count - 1, checking := h.checking - {c})
  }

  function EffectOf(h: Host, step: Step, max: int): Effect
    requires step.GetLock? || step.HealthBad? ==> step.evict <= |h.conns|
    requires step.DialOk? || step.DialFail? ==> h.dialing > 0
  {
    match step
    case GetLock(_, evict) => Pick(h, evict, max)
    case HealthOk(_, c) => Effect(h.(checking := h.checking - {c}, held := h.held + {c}), [], {})
    case HealthBad(_, c, evict) =>
      var e := Pick(ReleaseChecked(h, c), evict, max);
      e.(closed := [c] + e.closed)
    case DialOk(_, c) => Effect(h.(dialing := h.dialing - 1, held := h.held + {c}), [], {c})
    case DialFail(_) => Effect(h.(dialing := h.dialing - 1, count := h.count - 1), [], {})
    case Put(_, c, healthy) =>
      if healthy then Effect(h.(held := h.held - {c}, conns := h.conns + [c]), [], {})
      else Effect(h.(held := h.held - {c}, count := h.count - 1), [c], {})
    case Discard(_, c) =>
      Effect(h.(held := h.held - {c}, count := if h.count > 0 then h.count - 1 else h.count), [c], {})
  }

  function Next(s: Pools, step: Step, max: int): Pools
    requires Enabled(s, step)
  {
    var e := EffectOf(At(s, step.addr), step, max);
    Pools(s.hosts[step.addr := e.host], s.dialed + e.added, s.closed + e.closed)
  }

  /** Steps that can be taken one after the other. */
  predicate Run(s: Pools, steps: seq<Step>, max: int)
    decreases |steps|
  {
    steps == [] || (Enabled(s, steps[0]) && Run(Next(s, steps[0], max), steps[1..], max))
  }

  function Final(s: Pools, steps: seq<Step>, max: int): Pools
    requires Run(s, steps, max)
    decreases |steps|
  {
    if steps == [] then s else Final(Next(s, steps[0], max), steps[1..], max)
  }

  // ---- What every host keeps ----

  predicate NoDup(cs: seq<Conn>) {
    forall i, j | 0 <= i < j < |cs| :: cs[i] != cs[j]
  }

  function Elements(cs: seq<Conn>): set<Conn> {
    if cs == [] then {} else Elements(cs[..|cs| - 1]) + {cs[|cs| - 1]}
  }

  lemma {:induction false} ElementsMean(cs: seq<Conn>)
    ensures forall c :: c in Elements(cs) <==> c in cs
  {
    if cs != [] {
      var rest := cs[..|cs| - 1];
      ElementsMean(rest);
      assert cs == rest + [cs[|cs| - 1]];
    }
  }

  function Owned(h: Host): set<Conn> {
    Elements(h.conns) + h.checking + h.held
  }

  /** Idle, checked and held connections are different ones, and with the dials under way they are the count. */
  predicate HostOk(h: Host, max: int) {
    && NoDup(h.conns)
    && Elements(h.conns) !! h.checking && Elements(h.conns) !! h.held && h.checking !! h.held
    && |h.conns| + |h.checking| + h.dialing + |h.held| == h.count
    && (max > 0 ==> h.count <= max)
  }

  /** Nothing gets lost: what the host owned it still owns, or it has just been closed, once. */
  ghost predicate Conserves(h: Host, e: Effect, max: int) {
    && HostOk(e.host, max)
    && Owned(e.host) + Elements(e.closed) == Owned(h) + e.added
    && Owned(e.host) !! Elements(e.closed)
    && NoDup(e.closed)
    && e.added !! Owned(h)
  }

  lemma {:induction false} PoppedAt(conns: seq<Conn>, n: nat, i: nat)
    requires i < n <= |conns|
    ensures Popped(conns, n)[i] == conns[|conns| - 1 - i]
    decreases i
  {
    if i > 0 {
      PoppedAt(conns[..|conns| - 1], n - 1, i - 1);
    }
  }

  /** The popped connections are the end of the idle list. */
  lemma PoppedParts(conns: seq<Conn>, n: nat)
    requires NoDup(conns) && n <= |conns|
    ensures NoDup(Popped(conns, n)) && NoDup(conns[..|conns| - n])
    ensures Elements(Popped(conns, n)) !! Elements(conns[..|conns| - n])
    ensures Elements(Popped(conns, n)) + Elements(conns[..|conns| - n]) == Elements(conns)
  {
    var p, rest := Popped(conns, n), conns[..|conns| - n];
    ElementsMean(conns);
    ElementsMean(p);
    ElementsMean(rest);
    forall i | 0 <= i < n
      ensures p[i] == conns[|conns| - 1 - i]
    {
      PoppedAt(conns, n, i);
    }
    forall c | c in conns
      ensures c in p || c in rest
    {
      var j :| 0 <= j < |conns| && conns[j] == c;
      if j < |conns| - n {
        assert rest[j] == c;
      } else {
        assert p[|conns| - 1 - j] == c;
      }
    }
  }

  lemma Last(cs: seq<Conn>)
    requires NoDup(cs) && cs != []
    ensures var c := cs[|cs| - 1]; c !in Elements(cs[..|cs| - 1]) && Elements(cs) == Elements(cs[..|cs| - 1]) + {c}
  {
    ElementsMean(cs[..|cs| - 1]);
  }

  /** Steps that close nothing. */
  lemma NothingClosed(h: Host, g: Host, added: set<Conn>, max: int)
    requires HostOk(g, max) && Owned(g) == Owned(h) + added && added !! Owned(h)
    ensures Conserves(h, Effect(g, [], added), max)
  {
    assert Elements([]) == {};
  }

  lemma Joined(i: set<Conn>, k: set<Conn>, l: set<Conn>, c: Conn)
    ensures i + k + (l + {c}) == (i + k + l) + {c}
    ensures i + (k + {c}) + l == (i + k + l) + {c}
    ensures (i + {c}) + k + l == (i + k + l) + {c}
    ensures c in l ==> i + k + (l - {c}) + {c} == i + k + l
    ensures c in k ==> i + (k - {c}) + l + {c} == i + k + l
  {
  }

  /** One idle connection goes to be checked, the popped ones `p` go away. */
  lemma TakenSets(i: set<Conn>, k: set<Conn>, l: set<Conn>, p: set<Conn>, rest: set<Conn>, c: Conn)
    requires i == p + (rest + {c}) && p !! (rest + {c}) && c !in rest
    requires i !! k && i !! l && k !! l
    ensures rest !! (k + {c}) && rest !! l && (k + {c}) !! l && |k + {c}| == |k| + 1
    ensures (rest + (k + {c}) + l) + p == i + k + l && (rest + (k + {c}) + l) !! p
  {
  }

  /** The idle list falls apart into what stays, the connection taken and the popped ones. */
  lemma IdleParts(conns: seq<Conn>, evict: nat)
    requires NoDup(conns) && evict < |conns|
    ensures var n := |conns| - evict;
            var c, rs, ps := conns[n - 1], Elements(conns[..n - 1]), Elements(Popped(conns, evict));
            && NoDup(conns[..n - 1]) && NoDup(Popped(conns, evict))
            && c !in rs && ps !! (rs + {c}) && Elements(conns) == ps + (rs + {c})
  {
    var n := |conns| - evict;
    PoppedParts(conns, evict);
    Last(conns[..n]);
    assert conns[..n][..n - 1] == conns[..n - 1];
  }

  lemma TakenOk(h: Host, g: Host, rest: set<Conn>, c: Conn, max: int)
    requires HostOk(h, max) && Elements(g.conns) == rest && NoDup(g.conns)
    requires g == h.(conns := g.conns, count := h.count - (|h.conns| - |g.conns| - 1), checking := h.checking + {c})
    requires |g.conns| < |h.conns| && |g.checking| == |h.checking| + 1
    requires rest !! g.checking && rest !! g.held && g.checking !! g.held
    ensures HostOk(g, max)
  {
  }

  lemma ConservesBy(h: Host, g: Host, closed: seq<Conn>, max: int)
    requires HostOk(g, max) && NoDup(closed)
    requires Owned(g) + Elements(closed) == Owned(h) && Owned(g) !! Elements(closed)
    ensures Conserves(h, Effect(g, closed, {}), max)
  {
    NoneAdded(Owned(h));
  }

  function TakeOut(h: Host, evict: nat): Host
    requires evict < |h.conns|
  {
    var n := |h.conns| - evict;
    h.(conns := h.conns[..n - 1], count := h.count - evict, checking := h.checking + {h.conns[n - 1]})
  }

  lemma TakenConserves(h: Host, g: Host, p: seq<Conn>, ps: set<Conn>, rs: set<Conn>, c: Conn, max: int)
    requires HostOk(h, max) && NoDup(p) && Elements(p) == ps
    requires NoDup(g.conns) && Elements(g.conns) == rs && |g.conns| < |h.conns|
    requires g == h.(conns := g.conns, count := h.count - (|h.conns| - |g.conns| - 1), checking := h.checking + {c})
    requires Elements(h.conns) == ps + (rs + {c}) && ps !! (rs + {c}) && c !in rs
    ensures Conserves(h, Effect(g, p, {}), max)
  {
    TakenSets(Elements(h.conns), h.checking, h.held, ps, rs, c);
    TakenOk(h, g, rs, c, max);
    ConservesBy(h, g, p, max);
  }

  lemma PickTakes(h: Host, evict: nat, max: int)
    requires HostOk(h, max) && evict < |h.conns|
    ensures Conserves(h, Effect(TakeOut(h, evict), Popped(h.conns, evict), {}), max)
  {
    var n := |h.conns| - evict;
    var p := Popped(h.conns, evict);
    IdleParts(h.conns, evict);
    TakenConserves(h, TakeOut(h, evict), p, Elements(p), Elements(h.conns[..n - 1]), h.conns[n - 1], max);
  }

  lemma EmptiedOk(h: Host, g: Host, max: int)
    requires HostOk(h, max) && g.conns == [] && g.checking == h.checking && g.held == h.held
    requires g.count - g.dialing == h.count - h.dialing - |h.conns| && (max > 0 ==> g.count <= max)
    ensures HostOk(g, max)
  {
  }

  lemma PickAllExpired(h: Host, max: int)
    requires HostOk(h, max)
    ensures Conserves(h, Pick(h, |h.conns|, max), max)
  {
    var p := Popped(h.conns, |h.conns|);
    PoppedParts(h.conns, |h.conns|);
    assert h.conns[..0] == [];
    var g := Pick(h, |h.conns|, max).host;
    EmptiedOk(h, g, max);
    var ps := Elements(p);
    assert ps == Elements(h.conns);
    EmptiedSets(ps, h.checking, h.held);
    ConservesBy(h, g, p, max);
  }

  lemma EmptiedSets(i: set<Conn>, k: set<Conn>, l: set<Conn>)
    requires i !! k && i !! l
    ensures ({} + k + l) + i == i + k + l && ({} + k + l) !! i
  {
  }

  lemma PickConserves(h: Host, evict: nat, max: int)
    requires HostOk(h, max) && evict <= |h.conns|
    ensures Conserves(h, Pick(h, evict, max), max)
  {
    if evict < |h.conns| {
      PickTakes(h, evict, max);
      assert Pick(h, evict, max) == Effect(TakeOut(h, evict), Popped(h.conns, evict), {});
    } else {
      PickAllExpired(h, max);
    }
  }

  lemma ReleaseOk(h: Host, c: Conn, max: int)
    requires HostOk(h, max) && c in h.checking
    ensures HostOk(ReleaseChecked(h, c), max)
    ensures Owned(ReleaseChecked(h, c)) + {c} == Owned(h) && c !in Owned(ReleaseChecked(h, c))
  {
    Joined(Elements(h.conns), h.checking, h.held, c);
  }

  lemma NoneAdded(o: set<Conn>)
    ensures o + {} == o
  {
  }

  lemma Cons(c: Conn, cs: seq<Conn>)
    requires NoDup(cs) && c !in Elements(cs)
    ensures NoDup([c] + cs) && Elements([c] + cs) == {c} + Elements(cs)
  {
    ElementsMean(cs);
    ElementsMean([c] + cs);
  }

  lemma ClosedSets(before: set<Conn>, released: set<Conn>, after: set<Conn>, closed: set<Conn>, c: Conn)
    requires released + {c} == before && c !in released && after + closed == released && after !! closed
    ensures c !in closed && after + ({c} + closed) == before && after !! ({c} + closed)
  {
  }

  /** Closing one more connection that the host owned before. */
  lemma CloseFirst(h: Host, r: Host, c: Conn, e: Effect, max: int)
    requires Owned(r) + {c} == Owned(h) && c !in Owned(r) && Conserves(r, e, max) && e.added == {}
    ensures Conserves(h, e.(closed := [c] + e.closed), max)
  {
    var o, o', after, closed := Owned(h), Owned(r), Owned(e.host), Elements(e.closed);
    NoneAdded(o');
    ClosedSets(o, o', after, closed, c);
    Cons(c, e.closed);
    NoneAdded(o);
  }

  lemma BadConserves(h: Host, a: Addr, c: Conn, evict: nat, max: int)
    requires HostOk(h, max) && c in h.checking && evict <= |h.conns|
    ensures Conserves(h, EffectOf(h, HealthBad(a, c, evict), max), max)
  {
    var r := ReleaseChecked(h, c);
    ReleaseOk(h, c, max);
    PickConserves(r, evict, max);
    CloseFirst(h, r, c, Pick(r, evict, max), max);
  }

  lemma PutSets(i: set<Conn>, k: set<Conn>, l: set<Conn>, c: Conn)
    requires i !! k && i !! l && k !! l && c in l
    ensures c !in i && (i + {c}) !! k && (i + {c}) !! (l - {c}) && k !! (l - {c}) && |l - {c}| == |l| - 1
    ensures (i + {c}) + k + (l - {c}) == i + k + l
  {
  }

  lemma Snoc(cs: seq<Conn>, c: Conn)
    requires NoDup(cs) && c !in Elements(cs)
    ensures NoDup(cs + [c]) && Elements(cs + [c]) == Elements(cs) + {c}
  {
    ElementsMean(cs);
    assert (cs + [c])[..|cs|] == cs;
  }

  lemma PutBack(h: Host, a: Addr, c: Conn, max: int)
    requires HostOk(h, max) && c in h.held
    ensures Conserves(h, EffectOf(h, Put(a, c, true), max), max)
  {
    var g := h.(held := h.held - {c}, conns := h.conns + [c]);
    PutSets(Elements(h.conns), h.checking, h.held, c);
    Snoc(h.conns, c);
    assert HostOk(g, max);
    NoneAdded(Owned(h));
    NothingClosed(h, g, {}, max);
  }

  lemma DropSets(i: set<Conn>, k: set<Conn>, l: set<Conn>, c: Conn)
    requires i !! l && k !! l && c in l
    ensures i !! (l - {c}) && k !! (l - {c}) && |l - {c}| == |l| - 1
    ensures (i + k + (l - {c})) + {c} == i + k + l && c !in i + k + (l - {c})
  {
  }

  lemma GivenUp(h: Host, c: Conn, max: int)
    requires HostOk(h, max) && c in h.held
    ensures Conserves(h, Effect(h.(held := h.held - {c}, count := h.count - 1), [c], {}), max)
    ensures h.count > 0
  {
    var g := h.(held := h.held - {c}, count := h.count - 1);
    DropSets(Elements(h.conns), h.checking, h.held, c);
    NoneAdded(Owned(g));
    NothingClosed(g, g, {}, max);
    CloseFirst(h, g, c, Effect(g, [], {}), max);
    assert [c] + [] == [c];
  }

  lemma MoveSets(i: set<Conn>, k: set<Conn>, l: set<Conn>, c: Conn)
    requires i !! k && i !! l && k !! l && c in k
    ensures i !! (k - {c}) && i !! (l + {c}) && (k - {c}) !! (l + {c}) && |k - {c}| == |k| - 1 && |l + {c}| == |l| + 1
    ensures i + (k - {c}) + (l + {c}) == i + k + l
  {
  }

  lemma OkConserves(h: Host, a: Addr, c: Conn, max: int)
    requires HostOk(h, max) && c in h.checking
    ensures Conserves(h, EffectOf(h, HealthOk(a, c), max), max)
  {
    var g := h.(checking := h.checking - {c}, held := h.held + {c});
    MoveSets(Elements(h.conns), h.checking, h.held, c);
    NoneAdded(Owned(h));
    NothingClosed(h, g, {}, max);
  }

  lemma DialedConserves(h: Host, a: Addr, c: Conn, max: int)
    requires HostOk(h, max) && h.dialing > 0 && c !in Owned(h)
    ensures Conserves(h, EffectOf(h, DialOk(a, c), max), max)
  {
    Joined(Elements(h.conns), h.checking, h.held, c);
    NothingClosed(h, h.(dialing := h.dialing - 1, held := h.held + {c}), {c}, max);
  }

  lemma FailedConserves(h: Host, a: Addr, max: int)
    requires HostOk(h, max) && h.dialing > 0
    ensures Conserves(h, EffectOf(h, DialFail(a), max), max)
  {
    NothingClosed(h, h.(dialing := h.dialing - 1, count := h.count - 1), {}, max);
  }

  lemma GetConserves(h: Host, a: Addr, evict: nat, max: int)
    requires HostOk(h, max) && evict <= |h.conns|
    ensures Conserves(h, EffectOf(h, GetLock(a, evict), max), max)
  {
    PickConserves(h, evict, max);
  }

  lemma PutConserves(h: Host, a: Addr, c: Conn, healthy: bool, max: int)
    requires HostOk(h, max) && c in h.held
    ensures Conserves(h, EffectOf(h, Put(a, c, healthy), max), max)
  {
    if healthy {
      PutBack(h, a, c, max);
    } else {
      GivenUp(h, c, max);
    }
  }

  lemma DiscardConserves(h: Host, a: Addr, c: Conn, max: int)
    requires HostOk(h, max) && c in h.held
    ensures Conserves(h, EffectOf(h, Discard(a, c), max), max)
  {
    GivenUp(h, c, max);
  }

  // ---- What all hosts keep ----

  /** Every connection ever dialed is in one place: owned by one host, or closed. */
  ghost predicate Placed(own: map<Addr, set<Conn>>, closed: set<Conn>, dialed: set<Conn>) {
    && (forall a, b | a in own && b in own && a != b :: own[a] !! own[b])
    && (forall a | a in own :: own[a] <= dialed && own[a] !! closed)
    && closed <= dialed
    && (forall c | c in dialed && c !in closed :: exists a :: a in own && c in own[a])
  }

  function Owns(s: Pools): map<Addr, set<Conn>> {
    map a | a in s.hosts :: Owned(s.hosts[a])
  }

  /** Hosts are in order, every connection is in one place, and none was closed twice. */
  ghost predicate Inv(s: Pools, max: int) {
    && (forall a | a in s.hosts :: HostOk(s.hosts[a], max))
    && Placed(Owns(s), Elements(s.closed), s.dialed)
    && NoDup(s.closed)
  }

  lemma HostConserves(h: Host, step: Step, max: int)
    requires HostOk(h, max)
    requires step.GetLock? || step.HealthBad? ==> step.evict <= |h.conns|
    requires step.DialOk? || step.DialFail? ==> h.dialing > 0
    requires step.HealthOk? || step.HealthBad? ==> step.c in h.checking
    requires step.Put? || step.Discard? ==> step.c in h.held
    requires step.DialOk? ==> step.c !in Owned(h)
    ensures Conserves(h, EffectOf(h, step, max), max)
  {
    match step
    case GetLock(a, evict) => GetConserves(h, a, evict, max);
    case HealthOk(a, c) => OkConserves(h, a, c, max);
    case HealthBad(a, c, evict) => BadConserves(h, a, c, evict, max);
    case DialOk(a, c) => DialedConserves(h, a, c, max);
    case DialFail(a) => FailedConserves(h, a, max);
    case Put(a, c, healthy) => PutConserves(h, a, c, healthy, max);
    case Discard(a, c) => DiscardConserves(h, a, c, max);
  }

  lemma Concat(a: seq<Conn>, b: seq<Conn>)
    requires NoDup(a) && NoDup(b) && Elements(a) !! Elements(b)
    ensures NoDup(a + b) && Elements(a + b) == Elements(a) + Elements(b)
  {
    ElementsMean(a);
    ElementsMean(b);
    ElementsMean(a + b);
    forall i, j | 0 <= i < j < |a + b|
      ensures (a + b)[i] != (a + b)[j]
    {
      if i < |a| <= j {
        assert a[i] in a && b[j - |a|] in b;
      }
    }
  }

  function OwnedBy(own: map<Addr, set<Conn>>, a: Addr): set<Conn> {
    if a in own then own[a] else {}
  }

  lemma PlacedApart(own: map<Addr, set<Conn>>, closed: set<Conn>, dialed: set<Conn>, a: Addr)
    requires Placed(own, closed, dialed)
    ensures OwnedBy(own, a) <= dialed && OwnedBy(own, a) !! closed
    ensures forall b | b in own && b != a :: own[b] !! OwnedBy(own, a)
  {
  }

  /** One host gives up `gone` and takes on `added`, which nobody had. */
  lemma PlacedStep(own: map<Addr, set<Conn>>, closed: set<Conn>, dialed: set<Conn>, a: Addr,
                   after: set<Conn>, gone: set<Conn>, added: set<Conn>)
    requires Placed(own, closed, dialed) && added !! dialed
    requires after + gone == OwnedBy(own, a) + added && after !! gone
    ensures Placed(own[a := after], closed + gone, dialed + added) && gone !! closed
  {
    var own' := own[a := after];
    var o := OwnedBy(own, a);
    PlacedApart(own, closed, dialed, a);
    forall b | b in own && b != a
      ensures own[b] !! after && own[b] !! gone && own[b] <= dialed + added
    {
      assert own[b] !! o + added;
    }
    assert after + gone <= dialed + added;
    forall c | c in dialed + added && c !in closed + gone
      ensures exists b :: b in own' && c in own'[b]
    {
      if c in o + added {
        assert a in own' && c in own'[a];
      } else {
        var b :| b in own && c in own[b];
        assert b in own' && c in own'[b];
      }
    }
  }

  lemma OwnsUpdated(s: Pools, t: Pools, a: Addr, g: Host)
    requires t.hosts == s.hosts[a := g]
    ensures Owns(t) == Owns(s)[a := Owned(g)] && OwnedBy(Owns(s), a) == Owned(At(s, a))
  {
    assert Owned(NO_HOST) == {};
  }

  lemma PlacedChanged(s: Pools, t: Pools, a: Addr, e: Effect, max: int)
    requires Placed(Owns(s), Elements(s.closed), s.dialed) && NoDup(s.closed)
    requires Conserves(At(s, a), e, max) && e.added !! s.dialed
    requires t == Pools(s.hosts[a := e.host], s.dialed + e.added, s.closed + e.closed)
    ensures Placed(Owns(t), Elements(t.closed), t.dialed) && NoDup(t.closed)
  {
    OwnsUpdated(s, t, a, e.host);
    PlacedStep(Owns(s), Elements(s.closed), s.dialed, a, Owned(e.host), Elements(e.closed), e.added);
    Concat(s.closed, e.closed);
  }

  /** A change of one host that loses nothing keeps the invariant. */
  lemma HostChanged(s: Pools, a: Addr, e: Effect, max: int)
    requires Inv(s, max) && Conserves(At(s, a), e, max) && e.added !! s.dialed
    ensures Inv(Pools(s.hosts[a := e.host], s.dialed + e.added, s.closed + e.closed), max)
  {
    PlacedChanged(s, Pools(s.hosts[a := e.host], s.dialed + e.added, s.closed + e.closed), a, e, max);
  }

  lemma AtOk(s: Pools, a: Addr, max: int)
    requires Inv(s, max)
    ensures HostOk(At(s, a), max) && Owned(At(s, a)) <= s.dialed
  {
    PlacedApart(Owns(s), Elements(s.closed), s.dialed, a);
  }

  lemma StepKeepsInv(s: Pools, step: Step, max: int)
    requires Inv(s, max) && Enabled(s, step)
    ensures Inv(Next(s, step, max), max)
  {
    var h := At(s, step.addr);
    AtOk(s, step.addr, max);
    HostConserves(h, step, max);
    var e := EffectOf(h, step, max);
    AddedIsNew(s, step, max);
    HostChanged(s, step.addr, e, max);
  }

  lemma AddedIsNew(s: Pools, step: Step, max: int)
    requires Enabled(s, step)
    ensures EffectOf(At(s, step.addr), step, max).added !! s.dialed
  {
  }

  lemma {:induction false} RunKeepsInv(s: Pools, steps: seq<Step>, max: int)
    requires Inv(s, max) && Run(s, steps, max)
    ensures Inv(Final(s, steps, max), max)
    decreases |steps|
  {
    if steps != [] {
      StepKeepsInv(s, steps[0], max);
      RunKeepsInv(Next(s, steps[0], max), steps[1..], max);
    }
  }

  /**
   After any interleaving from an empty pool: for every host the idle, checked and held connections and the dials
   under way make up the count, which is within the limit; no connection is in two places; every connection that is
   gone was closed, and none twice.
   */
  lemma PoolIsSafe(steps: seq<Step>, max: int)
    requires Run(INIT, steps, max)
    ensures var s := Final(INIT, steps, max);
            && (forall a | a in s.hosts :: HostOk(s.hosts[a], max))
            && Placed(Owns(s), Elements(s.closed), s.dialed)
            && NoDup(s.closed)
  {
    RunKeepsInv(INIT, steps, max);
  }
}
