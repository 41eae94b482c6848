/**
 The circuit breaker in front of every cache operation: after `cbFailures` failures in a row
 no operation is attempted for `cbCooldownMs`; one success closes it again.
 */
module CircuitBreaker {

  datatype Config = Config(cbFailures: int, cbCooldownMs: int)

  datatype Breaker = Breaker(consecutiveFailures: nat, circuitOpenUntil: int)

  const Closed := Breaker(0, 0)

  predicate IsOpen(b: Breaker, now: nat) {
    b.circuitOpenUntil > now
  }

  function AfterFailure(cfg: Config, b: Breaker, now: nat): Breaker {
    var n := b.consecutiveFailures + 1;
    Breaker(n, if n >= cfg.cbFailures then now + cfg.cbCooldownMs else b.circuitOpenUntil)
  }

  /** One call of `executeOp`: when it starts, when its operation ends, and whether that works. */
  datatype Call = Call(start: nat, end: nat, works: bool)

  /** What the end of an attempted call makes of the breaker. */
  function AfterEnd(cfg: Config, b: Breaker, c: Call): Breaker {
    if c.works then Closed else AfterFailure(cfg, b, c.end)
  }

  function AfterCall(cfg: Config, b: Breaker, c: Call): Breaker {
    if IsOpen(b, c.start) then b else AfterEnd(cfg, b, c)
  }

  function AfterCalls(cfg: Config, b: Breaker, calls: seq<Call>): Breaker
    decreases |calls|
  {
    if calls == [] then b else AfterCalls(cfg, AfterCall(cfg, b, calls[0]), calls[1..])
  }

  /** Calls made one after the other, none before `t`. */
  predicate Sequential(calls: seq<Call>, t: nat) {
    calls == [] || (t <= calls[0].start <= calls[0].end && Sequential(calls[1..], calls[0].end))
  }

  predicate AllFail(calls: seq<Call>) {
    forall c :: c in calls ==> !c.works
  }

  /** How many calls attempt their operation with a start between `t0` and `t1`. */
  function Attempts(cfg: Config, b: Breaker, calls: seq<Call>, t0: nat, t1: nat): nat
    decreases |calls|
  {
    if calls == [] then 0
    else (if !IsOpen(b, calls[0].start) && t0 <= calls[0].start <= t1 then 1 else 0)
         + Attempts(cfg, AfterCall(cfg, b, calls[0]), calls[1..], t0, t1)
  }

  /** What holds of the two fields at all times: an opening time is only set after enough failures. */
  predicate Sane(cfg: Config, b: Breaker) {
    b.circuitOpenUntil != 0 ==> b.consecutiveFailures >= cfg.cbFailures
  }

  lemma {:induction false} AlwaysSane(cfg: Config, b: Breaker, calls: seq<Call>)
    requires Sane(cfg, b)
    ensures Sane(cfg, AfterCalls(cfg, b, calls))
    decreases |calls|
  {
    if calls != [] {
      AlwaysSane(cfg, AfterCall(cfg, b, calls[0]), calls[1..]);
    }
  }

  function Max(x: int, y: int): int {
    if x < y then y else x
  }

  /** The attempts still possible from time `t` to `t1`. */
  function Budget(cfg: Config, b: Breaker, t: nat, t1: nat): int
    requires cfg.cbCooldownMs > 0
  {
    if b.consecutiveFailures < cfg.cbFailures then
      if t > t1 then 0 else cfg.cbFailures - b.consecutiveFailures + (t1 - t) / cfg.cbCooldownMs
    else
      var s := Max(t, b.circuitOpenUntil);
      if s > t1 then 0 else 1 + (t1 - s) / cfg.cbCooldownMs
  }

  lemma SmallMultiple(k: int, d: int)
    requires d > 0 && -d < d * k < d
    ensures k == 0
  {
  }

  lemma QuotientIs(x: int, d: int, q: int)
    requires d > 0 && 0 <= x - d * q < d
    ensures x / d == q
  {
    var r := x / d;
    assert 0 <= x - d * r < d;
    assert d * (r - q) == d * r - d * q;
    SmallMultiple(r - q, d);
  }

  lemma QuotientStep(x: int, d: int)
    requires d > 0
    ensures (x - d) / d == x / d - 1
  {
    var q := x / d;
    assert 0 <= x - d * q < d;
    assert d * (q - 1) == d * q - d;
    QuotientIs(x - d, d, q - 1);
  }

  lemma {:induction false} QuotientMonotone(x: int, y: int, d: int)
    requires 0 <= x <= y && d > 0
    ensures x / d <= y / d
    decreases y
  {
    if x < d {
      QuotientIs(x, d, 0);
      assert y / d >= 0;
    } else {
      QuotientMonotone(x - d, y - d, d);
      QuotientStep(x, d);
      QuotientStep(y, d);
    }
  }

  /** One failing call, attempted or not, uses up at least what it counts for. */
  lemma BudgetPays(cfg: Config, b: Breaker, c: Call, t: nat, t0: nat, t1: nat)
    requires cfg.cbCooldownMs > 0 && Sane(cfg, b)
    requires t <= c.start <= c.end && !c.works && t0 <= t1
    ensures (if !IsOpen(b, c.start) && t0 <= c.start <= t1 then 1 else 0)
            + Budget(cfg, AfterCall(cfg, b, c), Max(c.end, t0), t1)
            <= Budget(cfg, b, Max(t, t0), t1)
  {
    if b.consecutiveFailures >= cfg.cbFailures {
      BudgetPaysLate(cfg, b, c, t, t0, t1);
    } else {
      BudgetPaysEarly(cfg, b, c, t, t0, t1);
    }
  }

  /** After enough failures: the circuit opens for another cooldown. */
  lemma BudgetPaysLate(cfg: Config, b: Breaker, c: Call, t: nat, t0: nat, t1: nat)
    requires cfg.cbCooldownMs > 0 && Sane(cfg, b) && b.consecutiveFailures >= cfg.cbFailures
    requires t <= c.start <= c.end && !c.works && t0 <= t1
    ensures (if !IsOpen(b, c.start) && t0 <= c.start <= t1 then 1 else 0)
            + Budget(cfg, AfterCall(cfg, b, c), Max(c.end, t0), t1)
            <= Budget(cfg, b, Max(t, t0), t1)
  {
    var d, u, v := cfg.cbCooldownMs, Max(t, t0), Max(c.end, t0);
    var b' := AfterCall(cfg, b, c);
    var s, s' := Max(u, b.circuitOpenUntil), Max(v, b'.circuitOpenUntil);
    assert s <= s' && b'.consecutiveFailures >= cfg.cbFailures;
    if s' <= t1 {
      if !IsOpen(b, c.start) && t0 <= c.start {
        assert s + d <= s';
        OneCooldownLess(s, s', t1, d);
      } else {
        QuotientMonotone(t1 - s', t1 - s, d);
      }
    }
  }

  lemma OneCooldownLess(s: int, s': int, t1: int, d: int)
    requires d > 0 && s + d <= s' <= t1
    ensures 1 + (t1 - s') / d <= (t1 - s) / d
  {
    QuotientStep(t1 - s, d);
    QuotientMonotone(t1 - s', t1 - s - d, d);
  }

  /** Before: the failure counts, and may open the circuit. */
  lemma BudgetPaysEarly(cfg: Config, b: Breaker, c: Call, t: nat, t0: nat, t1: nat)
    requires cfg.cbCooldownMs > 0 && Sane(cfg, b) && b.consecutiveFailures < cfg.cbFailures
    requires t <= c.start <= c.end && !c.works && t0 <= t1
    ensures (if !IsOpen(b, c.start) && t0 <= c.start <= t1 then 1 else 0)
            + Budget(cfg, AfterCall(cfg, b, c), Max(c.end, t0), t1)
            <= Budget(cfg, b, Max(t, t0), t1)
  {
    var d, u, v := cfg.cbCooldownMs, Max(t, t0), Max(c.end, t0);
    var b' := AfterCall(cfg, b, c);
    if v <= t1 {
      QuotientMonotone(t1 - v, t1 - u, d);
    }
    if b'.consecutiveFailures >= cfg.cbFailures {
      var s' := Max(v, b'.circuitOpenUntil);
      if s' <= t1 {
        QuotientMonotone(t1 - s', t1 - u, d);
        if t0 <= c.start {
          QuotientStep(t1 - u, d);
          QuotientMonotone(t1 - s', t1 - u - d, d);
        }
      }
    }
  }

  lemma {:induction false} AttemptsWithinBudget(cfg: Config, b: Breaker, calls: seq<Call>, t: nat, t0: nat, t1: nat)
    requires cfg.cbCooldownMs > 0 && Sane(cfg, b)
    requires Sequential(calls, t) && AllFail(calls) && t0 <= t1
    ensures Attempts(cfg, b, calls, t0, t1) <= Budget(cfg, b, Max(t, t0), t1)
    decreases |calls|
  {
    if calls != [] {
      var c := calls[0];
      AttemptsWithinBudget(cfg, AfterCall(cfg, b, c), calls[1..], c.end, t0, t1);
      BudgetPays(cfg, b, c, t, t0, t1);
    }
  }

  /**
   Against a cache that never answers, sequential calls touch it at most `max(1, cbFailures)`
   times plus once per cooldown, in any window and from any state an earlier run leaves behind.
   */
  lemma AttemptsAreBounded(cfg: Config, earlier: seq<Call>, calls: seq<Call>, t: nat, t0: nat, t1: nat)
    requires cfg.cbCooldownMs > 0
    requires Sequential(calls, t) && AllFail(calls) && t0 <= t1
    ensures Attempts(cfg, AfterCalls(cfg, Closed, earlier), calls, t0, t1)
            <= Max(1, cfg.cbFailures) + (t1 - t0) / cfg.cbCooldownMs
  {
    var b := AfterCalls(cfg, Closed, earlier);
    AlwaysSane(cfg, Closed, earlier);
    AttemptsWithinBudget(cfg, b, calls, t, t0, t1);
    BudgetBounded(cfg, b, Max(t, t0), t0, t1);
  }

  lemma BudgetBounded(cfg: Config, b: Breaker, u: nat, t0: nat, t1: nat)
    requires cfg.cbCooldownMs > 0 && t0 <= t1 && t0 <= u
    ensures Budget(cfg, b, u, t1) <= Max(1, cfg.cbFailures) + (t1 - t0) / cfg.cbCooldownMs
  {
    var s := if b.consecutiveFailures < cfg.cbFailures then u else Max(u, b.circuitOpenUntil);
    QuotientMonotone(0, t1 - t0, cfg.cbCooldownMs);
    if s <= t1 { QuotientMonotone(t1 - s, t1 - t0, cfg.cbCooldownMs); }
  }

  // ---------------------------------------------------------------- the bound is exact

  /** `n` calls that fail at once, `gap` apart. */
  function Calls(start: nat, n: nat, gap: nat): seq<Call>
    decreases n
  {
    if n == 0 then [] else [Call(start, start, false)] + Calls(start + gap, n - 1, gap)
  }

  lemma {:induction false} SpacedCallsAllGoThrough(cfg: Config, b: Breaker, start: nat, n: nat, t0: nat, t1: nat)
    requires cfg.cbCooldownMs > 0 && b.consecutiveFailures >= cfg.cbFailures && b.circuitOpenUntil <= start
    requires t0 <= start && start + (n - 1) * cfg.cbCooldownMs <= t1
    ensures Attempts(cfg, b, Calls(start, n, cfg.cbCooldownMs), t0, t1) == n
    decreases n
  {
    if n > 0 {
      var d := cfg.cbCooldownMs;
      var calls := Calls(start, n, d);
      assert calls[1..] == Calls(start + d, n - 1, d);
      StepsAdd(n - 1, d);
      if n == 1 {
        assert calls[1..] == [];
      } else {
        SpacedCallsAllGoThrough(cfg, AfterCall(cfg, b, calls[0]), start + d, n - 1, t0, t1);
      }
    }
  }

  lemma StepsAdd(n: nat, d: int)
    requires d > 0
    ensures n * d == (n - 1) * d + d && n * d >= 0
  {
  }

  lemma {:induction false} FirstCallsAllGoThrough(cfg: Config, b: Breaker, t: nat, rest: seq<Call>, t1: nat)
    requires cfg.cbCooldownMs > 0 && b.consecutiveFailures < cfg.cbFailures && b.circuitOpenUntil == 0 && t <= t1
    ensures var k := cfg.cbFailures - b.consecutiveFailures;
            Attempts(cfg, b, Calls(t, k, 0) + rest, t, t1)
            == k + Attempts(cfg, Breaker(cfg.cbFailures, t + cfg.cbCooldownMs), rest, t, t1)
    decreases cfg.cbFailures - b.consecutiveFailures
  {
    var k := cfg.cbFailures - b.consecutiveFailures;
    var calls := Calls(t, k, 0) + rest;
    assert calls[0] == Call(t, t, false) && calls[1..] == Calls(t, k - 1, 0) + rest;
    if k == 1 {
      assert calls[1..] == rest;
    } else {
      FirstCallsAllGoThrough(cfg, AfterCall(cfg, b, calls[0]), t, rest, t1);
    }
  }

  lemma {:induction false} CallsAreSequential(start: nat, n: nat, gap: nat, t: nat)
    requires t <= start
    ensures Sequential(Calls(start, n, gap), t) && AllFail(Calls(start, n, gap))
    decreases n
  {
    if n > 0 {
      CallsAreSequential(start + gap, n - 1, gap, start);
      assert Calls(start, n, gap)[1..] == Calls(start + gap, n - 1, gap);
    }
  }

  lemma {:induction false} ThenIsSequential(start: nat, n: nat, rest: seq<Call>, t: nat)
    requires t <= start && Sequential(rest, start) && AllFail(rest)
    ensures Sequential(Calls(start, n, 0) + rest, t) && AllFail(Calls(start, n, 0) + rest)
  {
    if n > 0 {
      ThenIsSequential(start, n - 1, rest, start);
      assert (Calls(start, n, 0) + rest)[1..] == Calls(start, n - 1, 0) + rest;
      assert forall c :: c in Calls(start, n, 0) + rest ==>
        c == Call(start, start, false) || c in Calls(start, n - 1, 0) + rest;
    } else {
      assert Calls(start, n, 0) + rest == rest;
      if rest != [] { assert t <= rest[0].start; }
    }
  }

  /** The bound is met by calls that are only ever refused while the circuit is open. */
  lemma BoundIsReached(cfg: Config, t0: nat, n: nat)
    requires cfg.cbCooldownMs > 0 && cfg.cbFailures > 0
    ensures n * cfg.cbCooldownMs >= 0
    ensures var calls := WorstCalls(cfg, t0, n);
            && Sequential(calls, t0) && AllFail(calls)
            && Attempts(cfg, Closed, calls, t0, t0 + n * cfg.cbCooldownMs) == cfg.cbFailures + n
  {
    var d := cfg.cbCooldownMs;
    StepsAdd(n, d);
    CallsAreSequential(t0 + d, n, d, t0);
    ThenIsSequential(t0, cfg.cbFailures, Calls(t0 + d, n, d), t0);
    WorstCallsAllGoThrough(cfg, t0, n, t0 + n * d);
  }

  /** As many calls at once as it takes to open the circuit, then one at the end of every cooldown. */
  function WorstCalls(cfg: Config, t0: nat, n: nat): seq<Call>
    requires cfg.cbCooldownMs > 0 && cfg.cbFailures > 0
  {
    Calls(t0, cfg.cbFailures, 0) + Calls(t0 + cfg.cbCooldownMs, n, cfg.cbCooldownMs)
  }

  lemma WorstCallsAllGoThrough(cfg: Config, t0: nat, n: nat, t1: nat)
    requires cfg.cbCooldownMs > 0 && cfg.cbFailures > 0 && t0 <= t1 == t0 + n * cfg.cbCooldownMs
    ensures Attempts(cfg, Closed, WorstCalls(cfg, t0, n), t0, t1) == cfg.cbFailures + n
  {
    var d := cfg.cbCooldownMs;
    FirstCallsAllGoThrough(cfg, Closed, t0, Calls(t0 + d, n, d), t1);
    StepsAdd(n, d);
    SpacedCallsAllGoThrough(cfg, Breaker(cfg.cbFailures, t0 + d), t0 + d, n, t0, t1);
  }

  /** One success resets both fields, whatever went before. */
  lemma SuccessCloses(cfg: Config, earlier: seq<Call>, c: Call)
    requires c.works && !IsOpen(AfterCalls(cfg, Closed, earlier), c.start)
    ensures AfterCalls(cfg, Closed, earlier + [c]) == Closed
  {
    AfterCallsAppend(cfg, Closed, earlier, c);
  }

  lemma {:induction false} AfterCallsAppend(cfg: Config, b: Breaker, calls: seq<Call>, c: Call)
    ensures AfterCalls(cfg, b, calls + [c]) == AfterCall(cfg, AfterCalls(cfg, b, calls), c)
    decreases |calls|
  {
    if calls == [] {
      assert calls + [c] == [c] && [c][1..] == [];
    } else {
      assert (calls + [c])[1..] == calls[1..] + [c];
      AfterCallsAppend(cfg, AfterCall(cfg, b, calls[0]), calls[1..], c);
    }
  }

  // ---------------------------------------------------------------- what a caller makes of it

  /** Calls made one after the other between `t` and `u` take the breaker from `b` to `after`. */
  ghost predicate Leads(cfg: Config, b: Breaker, t: nat, calls: seq<Call>, after: Breaker, u: nat) {
    && Sequential(calls, t) && AfterCalls(cfg, b, calls) == after
    && t <= u && (calls != [] ==> calls[|calls| - 1].end <= u)
  }

  lemma LeadsOn(cfg: Config, b: Breaker, t: nat, calls: seq<Call>, between: Breaker, u: nat, c: Call, v: nat)
    requires Leads(cfg, b, t, calls, between, u) && u <= c.start <= c.end <= v
    ensures Leads(cfg, b, t, calls + [c], AfterCall(cfg, between, c), v)
  {
    AfterCallsAppend(cfg, b, calls, c);
    SequentialAppend(calls, t, u, c);
  }

  /** At most one call, between `u` and `v`. */
  ghost predicate AtMostOne(cfg: Config, between: Breaker, u: nat, more: seq<Call>, after: Breaker, v: nat) {
    && |more| <= 1 && u <= v
    && if more == [] then after == between
       else u <= more[0].start <= more[0].end <= v && after == AfterCall(cfg, between, more[0])
  }

  lemma LeadsOver(cfg: Config, b: Breaker, t: nat, calls: seq<Call>, between: Breaker, u: nat, more: seq<Call>,
                  after: Breaker, v: nat)
    requires Leads(cfg, b, t, calls, between, u) && AtMostOne(cfg, between, u, more, after, v)
    ensures Leads(cfg, b, t, calls + more, after, v)
  {
    if more == [] {
      assert calls + more == calls;
    } else {
      assert more == [more[0]];
      LeadsOn(cfg, b, t, calls, between, u, more[0], v);
    }
  }

  lemma {:induction false} SequentialAppend(calls: seq<Call>, t: nat, u: nat, c: Call)
    requires Sequential(calls, t) && t <= u <= c.start <= c.end && (calls != [] ==> calls[|calls| - 1].end <= u)
    ensures Sequential(calls + [c], t)
  {
    if calls == [] {
      assert calls + [c] == [c] && [c][1..] == [];
    } else {
      assert (calls + [c])[1..] == calls[1..] + [c];
      if |calls| == 1 {
        assert calls[1..] + [c] == [c] && [c][1..] == [];
      } else {
        SequentialStarts(calls[1..], calls[0].end);
        SequentialAppend(calls[1..], calls[0].end, u, c);
      }
    }
  }

  lemma {:induction false} SequentialStarts(calls: seq<Call>, t: nat)
    requires Sequential(calls, t) && calls != []
    ensures t <= calls[|calls| - 1].end
  {
    if |calls| > 1 {
      SequentialStarts(calls[1..], calls[0].end);
    }
  }
}
