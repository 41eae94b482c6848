/**
 What an invalidation does to the counters and to the circuit breaker: one call for each namespace, all
 started before any of them ends, and ending in any order.
 */
module CacheBumps {
  import opened EntryKeys
  import opened VersionStores
  import opened CacheCoherence
  import opened Lists
  import CB = CircuitBreaker

  datatype CacheConfig = CacheConfig(
    enabled: bool, keyPrefix: string, disabledNamespaces: set<string>, breaker: CB.Config)

  predicate Moved(key: string, must: bool, may: bool, before: Counters, after: Counters) {
    && Eff(before, key) <= Eff(after, key) <= Eff(before, key) + 1
    && (must ==> Eff(after, key) == Eff(before, key) + 1)
    && (!may ==> Eff(after, key) == Eff(before, key))
  }

  /** A call that has ended, with its namespace. */
  datatype Bump = Bump(ns: string, call: CB.Call)

  predicate Called(log: seq<Bump>, n: string) {
    exists e :: e in log && e.ns == n
  }

  predicate CallWorked(log: seq<Bump>, n: string) {
    exists e :: e in log && e.ns == n && e.call.works
  }

  /**
   The version of a name whose call worked rises by one, and that of a name without a call stays; a call
   that failed may have landed.
   */
  ghost predicate Bumps(prefix: string, log: seq<Bump>, before: Counters, after: Counters) {
    forall n :: Moved(VersionKey(prefix, n), CallWorked(log, n), Called(log, n), before, after)
  }

  /** The names whose call worked, in the order in which the calls ended. */
  function Worked(log: seq<Bump>): seq<string> {
    if log == [] then []
    else
      var n := |log| - 1;
      Worked(log[..n]) + if log[n].call.works then [log[n].ns] else []
  }

  lemma {:induction false} WorkedAre(log: seq<Bump>, x: string)
    ensures x in Worked(log) <==> CallWorked(log, x)
  {
    if log != [] {
      var n := |log| - 1;
      WorkedAre(log[..n], x);
      assert log == log[..n] + [log[n]];
    }
  }

  /** The breaker once the calls have ended, one after the other. */
  function AfterBumps(cfg: CB.Config, b: CB.Breaker, log: seq<Bump>): CB.Breaker {
    if log == [] then b
    else CB.AfterEnd(cfg, AfterBumps(cfg, b, log[..|log| - 1]), log[|log| - 1].call)
  }

  /** The moments at which the calls for the names are started, one after the other from `t` on. */
  predicate Started(names: seq<string>, starts: seq<nat>, t: nat, now: nat) {
    && |starts| == |names| && t <= now
    && (forall i :: 0 <= i < |starts| ==> t <= starts[i] <= now)
    && (forall i, j :: 0 <= i < j < |starts| ==> starts[i] <= starts[j])
  }

  /** The call is that of the `i`-th name: the circuit was not open when it was started. */
  predicate IsCallOf(b: CB.Breaker, names: seq<string>, starts: seq<nat>, now: nat, e: Bump, i: nat) {
    && i < |names| == |starts| && e.ns == names[i] && e.call.start == starts[i] <= e.call.end <= now
    && !CB.IsOpen(b, starts[i])
  }

  /** The calls that have ended: each is that of a name, no name has two, and they are in the order of their ends. */
  ghost predicate Ended(b: CB.Breaker, names: seq<string>, starts: seq<nat>, log: seq<Bump>, now: nat) {
    && (forall e :: e in log ==> exists i :: IsCallOf(b, names, starts, now, e, i))
    && (forall k, l :: 0 <= k < l < |log| ==> log[k].ns != log[l].ns && log[k].call.end <= log[l].call.end)
  }

  /** How far an invalidation has come, from the breaker `b` and the counters `start`. */
  ghost predicate Bumping(config: CacheConfig, b: CB.Breaker, start: Counters, names: seq<string>, starts: seq<nat>,
                          log: seq<Bump>, bumped: seq<string>, counters: Counters, breaker: CB.Breaker, now: nat) {
    && AllPositive(counters)
    && Ended(b, names, starts, log, now)
    && breaker == AfterBumps(config.breaker, b, log)
    && Bumps(config.keyPrefix, log, start, counters)
    && bumped == Worked(log)
  }

  /** Every name has its call, unless the circuit was open when its turn came. */
  predicate AllCalled(b: CB.Breaker, names: seq<string>, starts: seq<nat>, log: seq<Bump>)
    requires |starts| == |names|
  {
    forall i :: 0 <= i < |names| ==> (Called(log, names[i]) <==> !CB.IsOpen(b, starts[i]))
  }

  /** The names whose call is still to end. */
  predicate ToEnd(names: seq<string>, sent: seq<bool>, pending: set<nat>, log: seq<Bump>)
    requires |sent| == |names|
  {
    && (forall i :: i in pending ==> i < |names|)
    && (forall i: nat :: i < |names| ==> (i in pending <==> sent[i] && !Called(log, names[i])))
  }

  /** What a call for one namespace leaves of the counters. */
  ghost predicate Lands(key: string, ok: bool, before: Counters, after: Counters) {
    && (ok ==> after == RedisIncr(before, key))
    && (after == RedisIncr(before, key) || after == before || after == before[key := RawIncr(before, key)])
  }

  lemma CalledMore(log: seq<Bump>, e: Bump, n: string)
    ensures Called(log + [e], n) <==> Called(log, n) || e.ns == n
    ensures CallWorked(log + [e], n) <==> CallWorked(log, n) || (e.ns == n && e.call.works)
  {
    assert e in log + [e];
  }

  lemma BumpOne(prefix: string, log: seq<Bump>, e: Bump, start: Counters, before: Counters, after: Counters)
    requires !Called(log, e.ns) && Bumps(prefix, log, start, before) && AllPositive(before)
    requires Lands(VersionKey(prefix, e.ns), e.call.works, before, after)
    ensures Bumps(prefix, log + [e], start, after)
  {
    forall n ensures Moved(VersionKey(prefix, n), CallWorked(log + [e], n), Called(log + [e], n), start, after) {
      CalledMore(log, e, n);
      assert Moved(VersionKey(prefix, n), CallWorked(log, n), Called(log, n), start, before);
      if n != e.ns {
        OtherKey(prefix, n, e.ns);
      }
    }
  }

  lemma EndedOne(b: CB.Breaker, names: seq<string>, starts: seq<nat>, log: seq<Bump>, since: nat, e: Bump, i: nat,
                 now: nat)
    requires Ended(b, names, starts, log, since) && !Called(log, e.ns)
    requires IsCallOf(b, names, starts, now, e, i) && since <= e.call.end
    ensures Ended(b, names, starts, log + [e], now)
  {
    forall d | d in log + [e] ensures exists j :: IsCallOf(b, names, starts, now, d, j) {
      if d in log {
        var j: nat :| IsCallOf(b, names, starts, since, d, j);
        assert IsCallOf(b, names, starts, now, d, j);
      }
    }
    forall k | 0 <= k < |log| ensures log[k].ns != e.ns && log[k].call.end <= e.call.end {
      assert log[k] in log;
    }
  }

  lemma BumpingStep(config: CacheConfig, b: CB.Breaker, start: Counters, names: seq<string>, starts: seq<nat>,
                    log: seq<Bump>, bumped: seq<string>, before: Counters, between: CB.Breaker, since: nat,
                    e: Bump, i: nat, after: Counters, now: nat)
    requires Bumping(config, b, start, names, starts, log, bumped, before, between, since)
    requires !Called(log, e.ns) && IsCallOf(b, names, starts, now, e, i) && since <= e.call.end
    requires AllPositive(after) && Lands(VersionKey(config.keyPrefix, e.ns), e.call.works, before, after)
    ensures Bumping(config, b, start, names, starts, log + [e], bumped + if e.call.works then [e.ns] else [], after,
                    CB.AfterEnd(config.breaker, between, e.call), now)
  {
    BumpOne(config.keyPrefix, log, e, start, before, after);
    EndedOne(b, names, starts, log, since, e, i, now);
    assert (log + [e])[..|log|] == log;
  }

  lemma ToEndStep(names: seq<string>, sent: seq<bool>, pending: set<nat>, log: seq<Bump>, e: Bump, i: nat)
    requires |sent| == |names| && ToEnd(names, sent, pending, log) && i in pending && e.ns == names[i]
    requires forall j, k :: 0 <= j < k < |names| ==> names[j] != names[k]
    ensures ToEnd(names, sent, pending - {i}, log + [e])
  {
    forall j: nat | j < |names|
      ensures j in pending - {i} <==> sent[j] && !Called(log + [e], names[j])
    {
      CalledMore(log, e, names[j]);
    }
  }

  /** With no call left every name that was sent has one. */
  lemma NoneToEnd(b: CB.Breaker, names: seq<string>, starts: seq<nat>, sent: seq<bool>, log: seq<Bump>, now: nat)
    requires |sent| == |names| == |starts| && ToEnd(names, sent, {}, log) && Ended(b, names, starts, log, now)
    requires forall i :: 0 <= i < |names| ==> (sent[i] <==> !CB.IsOpen(b, starts[i]))
    requires forall j, k :: 0 <= j < k < |names| ==> names[j] != names[k]
    ensures AllCalled(b, names, starts, log)
  {
    forall i | 0 <= i < |names| ensures Called(log, names[i]) <==> !CB.IsOpen(b, starts[i]) {
      if Called(log, names[i]) {
        var e :| e in log && e.ns == names[i];
        var j :| IsCallOf(b, names, starts, now, e, j);
        assert j == i;
      }
    }
  }

  /** When the circuit is closed to begin with and no call fails, every name is bumped. */
  lemma AllBumped(prefix: string, b: CB.Breaker, t: nat, namespaces: seq<string>, starts: seq<nat>, log: seq<Bump>,
                  before: Counters, after: Counters, now: nat)
    requires Started(Unique(namespaces), starts, t, now) && AllCalled(b, Unique(namespaces), starts, log)
    requires Ended(b, Unique(namespaces), starts, log, now) && Bumps(prefix, log, before, after)
    requires !CB.IsOpen(b, t) && forall e :: e in log ==> e.call.works
    ensures Elements(Worked(log)) == Elements(namespaces)
    ensures forall n :: n in namespaces ==> Eff(after, VersionKey(prefix, n)) == Eff(before, VersionKey(prefix, n)) + 1
  {
    var names := Unique(namespaces);
    forall n ensures n in namespaces <==> CallWorked(log, n) {
      assert n in namespaces <==> n in Elements(names);
      if n in names {
        var i :| 0 <= i < |names| && names[i] == n;
        assert Called(log, names[i]);
      }
      if CallWorked(log, n) {
        var e :| e in log && e.ns == n && e.call.works;
        var i :| IsCallOf(b, names, starts, now, e, i);
      }
    }
    forall n ensures n in Worked(log) <==> n in namespaces {
      WorkedAre(log, n);
    }
    forall n | n in namespaces ensures Eff(after, VersionKey(prefix, n)) == Eff(before, VersionKey(prefix, n)) + 1 {
      assert Moved(VersionKey(prefix, n), CallWorked(log, n), Called(log, n), before, after);
    }
  }

  lemma OtherKey(prefix: string, n: string, ns: string)
    requires n != ns
    ensures VersionKey(prefix, n) != VersionKey(prefix, ns)
  {
    if VersionKey(prefix, n) == VersionKey(prefix, ns) {
      CancelLeft(prefix + ":v:", n, ns);
    }
  }

  /** What a read needs of it: no version went down, and those of the names whose call worked went up. */
  lemma BumpsRaise(c: Setting, log: seq<Bump>, before: Counters, after: Counters)
    requires Bumps(c.prefix, log, before, after)
    ensures c.Grew(before, after)
    ensures forall n :: n in Worked(log) ==> c.Version(n, before) < c.Version(n, after)
  {
    forall n ensures c.Version(n, before) <= c.Version(n, after) {
      assert Moved(VersionKey(c.prefix, n), CallWorked(log, n), Called(log, n), before, after);
    }
    forall n | n in Worked(log) ensures c.Version(n, before) < c.Version(n, after) {
      WorkedAre(log, n);
      assert Moved(VersionKey(c.prefix, n), CallWorked(log, n), Called(log, n), before, after);
    }
  }
}
