/**
 Where every connection of the pool is, told from the steps alone: the idle connections of a host as a stack that
 callers push and pop, and the connections that are checked, held and closed.
 */
module PoolHistory {
  import opened Common
  import opened Pool

  /** The newest `n` of a stack, newest first, and the stack without them. */
  function Newest(stack: seq<Conn>, n: nat): seq<Conn>
    requires n <= |stack|
  {
    seq(n, i requires 0 <= i < n => stack[|stack| - 1 - i])
  }

  function Without(stack: seq<Conn>, n: nat): seq<Conn> {
    if n <= |stack| then stack[..|stack| - n] else []
  }

  /** Steps that look for an idle connection: they close `evict` expired ones and take the next one, if there is one. */
  predicate Looks(step: Step, a: Addr) {
    (step.GetLock? || step.HealthBad?) && step.addr == a
  }

  /** The idle connections of `a`, the newest last. */
  function Idle(past: seq<Step>, a: Addr): seq<Conn> {
    if past == [] then []
    else
      var step, before := past[|past| - 1], Idle(past[..|past| - 1], a);
      if Looks(step, a) then Without(before, step.evict + 1)
      else if step.Put? && step.addr == a && step.healthy then before + [step.c]
      else before
  }

  /** The connections of `a` that are taken out to be checked. */
  function Checked(past: seq<Step>, a: Addr): set<Conn> {
    if past == [] then {}
    else
      var step, before := past[|past| - 1], Checked(past[..|past| - 1], a);
      var idle := Idle(past[..|past| - 1], a);
      var rest := if (step.HealthOk? || step.HealthBad?) && step.addr == a then before - {step.c} else before;
      if Looks(step, a) && step.evict < |idle| then rest + {idle[|idle| - 1 - step.evict]} else rest
  }

  /** The connections of `a` that callers hold. */
  function Held(past: seq<Step>, a: Addr): set<Conn> {
    if past == [] then {}
    else
      var step, before := past[|past| - 1], Held(past[..|past| - 1], a);
      if step.addr != a then before
      else if step.HealthOk? || step.DialOk? then before + {step.c}
      else if step.Put? || step.Discard? then before - {step.c}
      else before
  }

  /** The dials under way for `a`: one starts when no idle connection is left and the host has room. */
  function Dialing(past: seq<Step>, a: Addr, max: int): int {
    if past == [] then 0
    else
      var step, n := past[|past| - 1], Dialing(past[..|past| - 1], a, max);
      var used := |Checked(past, a)| + n + |Held(past, a)|;
      if Looks(step, a) && step.evict >= |Idle(past[..|past| - 1], a)| then
        (if max <= 0 || used < max then n + 1 else n)
      else if (step.DialOk? || step.DialFail?) && step.addr == a then n - 1
      else n
  }

  /** All connections closed so far, in order. */
  function Closed(past: seq<Step>): seq<Conn> {
    if past == [] then []
    else
      var step, before := past[|past| - 1], Closed(past[..|past| - 1]);
      var idle := Idle(past[..|past| - 1], step.addr);
      before
      + (if step.HealthBad? || step.Discard? || (step.Put? && !step.healthy) then [step.c] else [])
      + (if Looks(step, step.addr) && step.evict <= |idle| then Newest(idle, step.evict) else [])
  }

  ghost predicate HostMatches(h: Host, past: seq<Step>, a: Addr, max: int) {
    && h.conns == Idle(past, a) && h.checking == Checked(past, a) && h.held == Held(past, a)
    && h.dialing == Dialing(past, a, max)
  }

  ghost predicate AllMatch(s: Pools, past: seq<Step>, max: int) {
    forall a: Addr :: HostMatches(At(s, a), past, a, max)
  }

  lemma Before(past: seq<Step>, step: Step)
    ensures (past + [step])[..|past + [step]| - 1] == past && (past + [step])[|past + [step]| - 1] == step
  {
  }

  lemma {:induction false} PoppedIsNewest(conns: seq<Conn>, n: nat)
    requires n <= |conns|
    ensures Popped(conns, n) == Newest(conns, n)
    decreases n
  {
    if n > 0 {
      PoppedIsNewest(conns[..|conns| - 1], n - 1);
    }
  }

  lemma PickMatches(h: Host, evict: nat, max: int)
    requires evict <= |h.conns|
    ensures var e := Pick(h, evict, max);
            && e.host.conns == Without(h.conns, evict + 1) && e.closed == Newest(h.conns, evict)
            && e.host.held == h.held
            && e.host.checking == h.checking + if evict < |h.conns| then {h.conns[|h.conns| - 1 - evict]} else {}
  {
    PoppedIsNewest(h.conns, evict);
  }

  /** Where no idle connection is left the count is what is checked, dialed and held. */
  lemma PickDials(h: Host, evict: nat, max: int)
    requires HostOk(h, max) && evict == |h.conns|
    ensures Pick(h, evict, max).host.dialing
            == if max <= 0 || |h.checking| + h.dialing + |h.held| < max then h.dialing + 1 else h.dialing
  {
  }

  lemma PickChecks(h: Host, evict: nat, max: int)
    requires evict < |h.conns|
    ensures Pick(h, evict, max).host.dialing == h.dialing
  {
  }

  /** One step that looks for an idle connection, in the terms before it. */
  lemma LookStep(past: seq<Step>, step: Step, max: int)
    requires Looks(step, step.addr)
    ensures var a, idle, all := step.addr, Idle(past, step.addr), past + [step];
            var rest := if step.HealthBad? then Checked(past, a) - {step.c} else Checked(past, a);
            && Idle(all, a) == Without(idle, step.evict + 1) && Held(all, a) == Held(past, a)
            && Checked(all, a) == rest + (if step.evict < |idle| then {idle[|idle| - 1 - step.evict]} else {})
            && (step.evict < |idle| ==> Dialing(all, a, max) == Dialing(past, a, max))
  {
    Before(past, step);
  }

  lemma LookDials(past: seq<Step>, step: Step, max: int)
    requires Looks(step, step.addr) && step.evict >= |Idle(past, step.addr)|
    ensures var a, n := step.addr, Dialing(past, step.addr, max);
            var used := |Checked(past + [step], a)| + n + |Held(past + [step], a)|;
            Dialing(past + [step], a, max) == if max <= 0 || used < max then n + 1 else n
  {
    Before(past, step);
  }

  lemma LookCloses(past: seq<Step>, step: Step)
    requires Looks(step, step.addr) && step.evict <= |Idle(past, step.addr)|
    ensures Closed(past + [step])
            == Closed(past) + ((if step.HealthBad? then [step.c] else []) + Newest(Idle(past, step.addr), step.evict))
  {
    Before(past, step);
  }

  /** Looking in a host `g` whose released connection, if any, is out of the check already. */
  lemma LookMatches(g: Host, past: seq<Step>, step: Step, max: int)
    requires HostOk(g, max) && Looks(step, step.addr) && step.evict <= |g.conns|
    requires g.conns == Idle(past, step.addr) && g.held == Held(past, step.addr)
    requires g.checking == if step.HealthBad? then Checked(past, step.addr) - {step.c} else Checked(past, step.addr)
    requires g.dialing == Dialing(past, step.addr, max)
    ensures HostMatches(Pick(g, step.evict, max).host, past + [step], step.addr, max)
  {
    LookStep(past, step, max);
    PickMatches(g, step.evict, max);
    if step.evict == |g.conns| {
      LookDials(past, step, max);
      PickDials(g, step.evict, max);
    } else {
      PickChecks(g, step.evict, max);
    }
  }

  lemma GetMatches(h: Host, past: seq<Step>, step: Step, max: int)
    requires HostMatches(h, past, step.addr, max) && HostOk(h, max) && step.GetLock? && step.evict <= |h.conns|
    ensures HostMatches(Pick(h, step.evict, max).host, past + [step], step.addr, max)
    ensures Closed(past + [step]) == Closed(past) + Pick(h, step.evict, max).closed
  {
    LookMatches(h, past, step, max);
    LookCloses(past, step);
    PickMatches(h, step.evict, max);
  }

  lemma BadMatches(h: Host, past: seq<Step>, step: Step, max: int)
    requires HostMatches(h, past, step.addr, max) && HostOk(h, max) && step.HealthBad?
    requires step.evict <= |h.conns| && step.c in h.checking
    ensures var e := Pick(ReleaseChecked(h, step.c), step.evict, max);
            && HostMatches(e.host, past + [step], step.addr, max)
            && Closed(past + [step]) == Closed(past) + ([step.c] + e.closed)
  {
    var g := ReleaseChecked(h, step.c);
    ReleaseOk(h, step.c, max);
    LookMatches(g, past, step, max);
    LookCloses(past, step);
    PickMatches(g, step.evict, max);
  }

  lemma OtherStep(h: Host, past: seq<Step>, step: Step, max: int)
    requires HostMatches(h, past, step.addr, max) && !step.GetLock? && !step.HealthBad?
    requires step.DialOk? || step.DialFail? ==> h.dialing > 0
    ensures HostMatches(EffectOf(h, step, max).host, past + [step], step.addr, max)
    ensures Closed(past + [step]) == Closed(past) + EffectOf(h, step, max).closed
  {
    Before(past, step);
  }

  lemma OwnHost(s: Pools, past: seq<Step>, step: Step, max: int)
    requires Inv(s, max) && Enabled(s, step) && HostMatches(At(s, step.addr), past, step.addr, max)
    requires s.closed == Closed(past)
    ensures HostMatches(At(Next(s, step, max), step.addr), past + [step], step.addr, max)
    ensures Next(s, step, max).closed == Closed(past + [step])
  {
    var h := At(s, step.addr);
    AtOk(s, step.addr, max);
    if step.GetLock? {
      GetMatches(h, past, step, max);
    } else if step.HealthBad? {
      BadMatches(h, past, step, max);
    } else {
      OtherStep(h, past, step, max);
    }
  }

  lemma OtherHost(past: seq<Step>, step: Step, a: Addr, max: int)
    requires step.addr != a
    ensures Idle(past + [step], a) == Idle(past, a) && Checked(past + [step], a) == Checked(past, a)
    ensures Held(past + [step], a) == Held(past, a) && Dialing(past + [step], a, max) == Dialing(past, a, max)
  {
    Before(past, step);
  }

  lemma NextMatches(s: Pools, past: seq<Step>, step: Step, max: int)
    requires Inv(s, max) && AllMatch(s, past, max) && s.closed == Closed(past) && Enabled(s, step)
    ensures AllMatch(Next(s, step, max), past + [step], max) && Next(s, step, max).closed == Closed(past + [step])
  {
    var t := Next(s, step, max);
    OwnHost(s, past, step, max);
    forall a: Addr
      ensures HostMatches(At(t, a), past + [step], a, max)
    {
      if a != step.addr {
        OtherHost(past, step, a, max);
        assert HostMatches(At(s, a), past, a, max);
      }
    }
  }

  ghost predicate Matches(s: Pools, past: seq<Step>, max: int) {
    Inv(s, max) && AllMatch(s, past, max) && s.closed == Closed(past)
  }

  ghost function Matching(max: int): (Pools, seq<Step>) -> bool {
    (s: Pools, past: seq<Step>) => Matches(s, past, max)
  }

  /** What every step carries on, with the steps so far, holds after every run. */
  lemma {:induction false} RunCarries(P: (Pools, seq<Step>) -> bool, s: Pools, past: seq<Step>, steps: seq<Step>,
                                      max: int)
    requires P(s, past) && Run(s, steps, max)
    requires forall u: Pools, p: seq<Step>, step: Step | P(u, p) && Enabled(u, step) ::
               P(Next(u, step, max), p + [step])
    ensures P(Final(s, steps, max), past + steps)
    decreases |steps|
  {
    if steps == [] {
      assert past + steps == past;
    } else {
      var step := steps[0];
      RunCarries(P, Next(s, step, max), past + [step], steps[1..], max);
      assert past + steps == (past + [step]) + steps[1..];
    }
  }

  lemma StepsCarry(max: int)
    ensures forall u: Pools, p: seq<Step>, step: Step | Matching(max)(u, p) && Enabled(u, step) ::
              Matching(max)(Next(u, step, max), p + [step])
  {
    forall u: Pools, p: seq<Step>, step: Step | Matching(max)(u, p) && Enabled(u, step)
      ensures Matching(max)(Next(u, step, max), p + [step])
    {
      NextMatches(u, p, step, max);
      StepKeepsInv(u, step, max);
    }
  }

  /**
   After any interleaving every host's idle connections are a stack of what callers put back, whatever happens at
   other hosts; a dial starts exactly where no idle connection is left and there is room; and the closed
   connections are the expired, the unhealthy and the discarded ones, in order.
   */
  lemma PoolFollowsSteps(steps: seq<Step>, max: int, a: Addr, t: Pools)
    requires Run(INIT, steps, max) && t == Final(INIT, steps, max)
    ensures HostMatches(At(t, a), steps, a, max) && t.closed == Closed(steps)
  {
    assert Matching(max)(INIT, []);
    StepsCarry(max);
    RunCarries(Matching(max), INIT, [], steps, max);
    assert [] + steps == steps;
  }
}
