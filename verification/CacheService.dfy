/**
 The cache service as one caller sees it. Every cache operation goes through the circuit
 breaker and may work, fail, or fail and take effect all the same; which of these happens is
 left open, so what is proved holds for each. Nothing commits while a call runs: that case is
 the subject of CacheProtocol.
 */
module CacheServiceModel {
  import opened JsValues
  import opened EntryKeys
  import opened VersionStores
  import opened CacheMetricsModel
  import opened CacheCoherence
  import opened CacheReads
  import opened CacheBumps
  import opened Lists
  import CB = CircuitBreaker

  /** The value cache behind the cache manager. */
  class EntryStore {
    var entries: map<string, Value>

    constructor ()
      ensures entries == map[]
    {
      entries := map[];
    }
  }

  class CacheService {
    const config: CacheConfig
    const cache: EntryStore
    const versionStore: RedisCacheVersionStore
    const metrics: CacheMetrics
    var consecutiveFailures: nat
    var circuitOpenUntil: int
    var now: nat

    constructor (config: CacheConfig, cache: EntryStore, versionStore: RedisCacheVersionStore, metrics: CacheMetrics)
      ensures this.config == config && this.cache == cache && this.versionStore == versionStore
        && this.metrics == metrics
      ensures Breaker() == CB.Closed
    {
      this.config, this.cache, this.versionStore, this.metrics := config, cache, versionStore, metrics;
      consecutiveFailures, circuitOpenUntil := 0, 0;
    }

    function Breaker(): CB.Breaker
      reads this
    {
      CB.Breaker(consecutiveFailures, circuitOpenUntil)
    }

    predicate IsNamespaceCacheable(ns: string) {
      config.enabled && ns !in config.disabledNamespaces && Family(ns) !in config.disabledNamespaces
    }

    /** Time passes. */
    method Tick()
      modifies this`now
      ensures now >= old(now)
    {
      var elapsed: int := *;
      now := now + (if elapsed > 0 then elapsed else 0);
    }

    method IsCircuitOpen() returns (open: bool)
      modifies this`now
      ensures now >= old(now) && open == CB.IsOpen(Breaker(), now)
    {
      Tick();
      open := circuitOpenUntil > now;
    }

    method RecordSuccess()
      modifies this`consecutiveFailures, this`circuitOpenUntil
      ensures Breaker() == CB.Closed
    {
      consecutiveFailures, circuitOpenUntil := 0, 0;
    }

    method RecordFailure()
      modifies this`consecutiveFailures, this`circuitOpenUntil
      ensures Breaker() == CB.AfterFailure(config.breaker, old(Breaker()), now)
    {
      consecutiveFailures := consecutiveFailures + 1;
      if consecutiveFailures >= config.breaker.cbFailures {
        circuitOpenUntil := now + config.breaker.cbCooldownMs;
      }
    }

    /** Which namespaces are cached: with the switch on, those that are not disabled, by name or by family. */
    lemma CacheableIff(family: string, rest: string)
      requires ':' !in family
      ensures IsNamespaceCacheable(family + ":" + rest) <==>
        config.enabled && {family, family + ":" + rest} !! config.disabledNamespaces
      ensures IsNamespaceCacheable(family) <==> config.enabled && family !in config.disabledNamespaces
    {
      FamilyOf(family, rest);
    }

    /**
     One pass through the breaker. `sent` says whether the operation was attempted, `ok` whether it worked
     in time; one that was sent may take effect all the same. `call` is the call as the breaker saw it.
     */
    method ExecuteOp() returns (ok: bool, sent: bool, ghost call: CB.Call)
      modifies this`consecutiveFailures, this`circuitOpenUntil, this`now
      ensures old(now) <= call.start <= call.end == now && (call.works <==> ok)
      ensures Breaker() == CB.AfterCall(config.breaker, old(Breaker()), call)
      ensures sent <==> !CB.IsOpen(old(Breaker()), call.start)
      ensures ok ==> sent
    {
      var open := IsCircuitOpen();
      ghost var start := now;
      if open {
        return false, false, CB.Call(start, start, false);
      }
      sent := true;
      ok := EndOp();
      call := CB.Call(start, now, ok);
    }

    /** An operation that was attempted ends, in time or not. */
    method EndOp() returns (ok: bool)
      modifies this`consecutiveFailures, this`circuitOpenUntil, this`now
      ensures now >= old(now)
      ensures forall start: nat :: Breaker() == CB.AfterEnd(config.breaker, old(Breaker()), CB.Call(start, now, ok))
    {
      ok := *;
      Tick();
      if ok {
        RecordSuccess();
      } else {
        RecordFailure();
      }
    }

    method ResolveVersions(namesRead: seq<string>) returns (versions: Option<Versions>, ghost call: CB.Call)
      modifies this`consecutiveFailures, this`circuitOpenUntil, this`now
      ensures old(now) <= call.start <= call.end == now && (call.works <==> versions.Some?)
      ensures Breaker() == CB.AfterCall(config.breaker, old(Breaker()), call)
      ensures versions.Some? ==> versions.value.Keys == Elements(namesRead)
      ensures versions.Some? ==> forall n :: n in versions.value ==>
        versions.value[n] == Eff(versionStore.client.values, VersionKey(config.keyPrefix, n))
    {
      var namespaces := Unique(namesRead);
      var keys := seq(|namespaces|, i requires 0 <= i < |namespaces| => VersionKey(config.keyPrefix, namespaces[i]));
      var ok, sent;
      ok, sent, call := ExecuteOp();
      if !ok { return None, call; }
      var values := versionStore.Mget(keys);
      var vv: Versions := map[];
      for i := 0 to |namespaces|
        invariant vv.Keys == Elements(namespaces[..i])
        invariant forall n :: n in namespaces[..i] ==>
          vv[n] == Eff(versionStore.client.values, VersionKey(config.keyPrefix, n))
      {
        vv := vv[namespaces[i] := if values[i].Some? then values[i].value else 1];
        assert namespaces[..i + 1] == namespaces[..i] + [namespaces[i]];
      }
      assert namespaces[..|namespaces|] == namespaces;
      versions := Some(vv);
    }

    method BuildEntryKey(ns: string, key: string, versions: Versions, dependsOn: seq<string>) returns (entryKey: string)
      ensures entryKey == EntryKey(config.keyPrefix, Request(ns, key, dependsOn), versions)
    {
      entryKey := config.keyPrefix + ":" + ns + ":v" + Decimal(Eff(versions, ns)) + ":" + key;
      ghost var start := config.keyPrefix + ":" + Head(ns, Eff(versions, ns)) + key;
      assert entryKey == start + Suffix([], versions);
      for i := 0 to |dependsOn|
        invariant entryKey == start + Suffix(dependsOn[..i], versions)
      {
        var dep := dependsOn[i];
        NextDependency(start, dependsOn, i, versions);
        entryKey := entryKey + ":" + dep + "v" + Decimal(Eff(versions, dep));
      }
      assert dependsOn[..|dependsOn|] == dependsOn;
    }

    method SafeGet(key: string) returns (ok: bool, value: Value, ghost call: CB.Call)
      modifies this`consecutiveFailures, this`circuitOpenUntil, this`now
      ensures old(now) <= call.start <= call.end == now && (call.works <==> ok)
      ensures Breaker() == CB.AfterCall(config.breaker, old(Breaker()), call)
      ensures ok ==> value == if key in cache.entries then cache.entries[key] else Undefined
    {
      var sent;
      ok, sent, call := ExecuteOp();
      value := if ok && key in cache.entries then cache.entries[key] else Undefined;
    }

    /** A SET that fails after it was sent may have landed. */
    method SafeSet(key: string, value: Value) returns (ghost call: CB.Call)
      modifies this`consecutiveFailures, this`circuitOpenUntil, this`now, cache
      ensures old(now) <= call.start <= call.end == now
      ensures Breaker() == CB.AfterCall(config.breaker, old(Breaker()), call)
      ensures cache.entries == old(cache.entries) || cache.entries == old(cache.entries)[key := value]
      ensures call.works ==> cache.entries == old(cache.entries)[key := value]
    {
      var ok, sent;
      ok, sent, call := ExecuteOp();
      var lands: bool := *;
      if ok || (sent && lands) {
        cache.entries := cache.entries[key := value];
      }
    }

    /** The version counters, the entry under them, and whether it was found. */
    method TryCache(req: Request, ghost c: Setting)
      returns (versions: Option<Versions>, found: Option<Value>, ghost outcome: CacheOutcome, ghost calls: seq<CB.Call>)
      requires c.prefix == config.keyPrefix
      modifies this`consecutiveFailures, this`circuitOpenUntil, this`now, metrics
      ensures CB.Leads(config.breaker, old(Breaker()), old(now), calls, Breaker(), now)
      ensures 1 <= |calls| <= 2 && (|calls| == 2 <==> calls[0].works) && (versions.Some? <==> calls[0].works)
      ensures versions.Some? ==> versions.value == c.Current(req, versionStore.client.values)
      ensures Saw(c.CurrentKey(req, versionStore.client.values), cache.entries, calls, outcome)
      ensures found ==
        if outcome == Hit then Some(cache.entries[c.CurrentKey(req, versionStore.client.values)]) else None
      ensures metrics.counters == Counted(old(metrics.counters), Family(req.ns), outcome)
    {
      ghost var call;
      versions, call := ResolveVersions([req.ns] + req.deps);
      calls := [call];
      assert [call][1..] == [];
      if versions.None? {
        metrics.Record(req.ns, Error);
        return None, None, Error, calls;
      }
      assert versions.value.Keys == req.Names();
      assert versions.value == c.Current(req, versionStore.client.values);
      var cacheKey := BuildEntryKey(req.ns, req.key, versions.value, req.deps);
      ghost var between, since := Breaker(), now;
      var ok, value;
      ok, value, call := SafeGet(cacheKey);
      CB.LeadsOn(config.breaker, old(Breaker()), old(now), calls, between, since, call, now);
      calls := calls + [call];
      if ok && Present(value) {
        metrics.Record(req.ns, Hit);
        return versions, Some(value), Hit, calls;
      }
      metrics.Record(req.ns, if ok then Miss else Error);
      found, outcome := None, if ok then Miss else Error;
    }

    /**
     The read. It looks under the key that the versions of all the names of `req` have now, and what it
     loads it stores under that key and no other; so it gives what the loader gives whenever what is there
     does. Whichever operations fail, at most three are made. `outcome` is what the metrics count.
     */
    method GetOrLoad(req: Request, c: Setting)
      returns (result: Value, ghost outcome: CacheOutcome, ghost calls: seq<CB.Call>)
      requires c.prefix == config.keyPrefix
      modifies this`consecutiveFailures, this`circuitOpenUntil, this`now, cache, metrics
      ensures c.Right(req, versionStore.client.values, old(cache.entries)) ==> result == c.load(req)
      ensures Disciplined(c.requests) && req in c.requests ==>
        c.Keeps(versionStore.client.values, old(cache.entries), cache.entries)
      ensures Served(c.CurrentKey(req, versionStore.client.values), c.load(req), old(cache.entries), cache.entries,
                     calls, outcome, result)
      ensures calls == [] <==> !IsNamespaceCacheable(req.ns) || outcome == Bypass
      ensures CB.Leads(config.breaker, old(Breaker()), old(now), calls, Breaker(), now)
      ensures metrics.counters == if IsNamespaceCacheable(req.ns)
        then Counted(old(metrics.counters), Family(req.ns), outcome) else old(metrics.counters)
      ensures IsNamespaceCacheable(req.ns) && outcome == Bypass ==> CB.IsOpen(Breaker(), now)
    {
      result, outcome, calls := Answer(req, c);
      ServedIsRight(c, req, versionStore.client.values, old(cache.entries), cache.entries, calls, outcome, result);
    }

    method Answer(req: Request, c: Setting)
      returns (result: Value, ghost outcome: CacheOutcome, ghost calls: seq<CB.Call>)
      requires c.prefix == config.keyPrefix
      modifies this`consecutiveFailures, this`circuitOpenUntil, this`now, cache, metrics
      ensures Served(c.CurrentKey(req, versionStore.client.values), c.load(req), old(cache.entries), cache.entries,
                     calls, outcome, result)
      ensures calls == [] <==> !IsNamespaceCacheable(req.ns) || outcome == Bypass
      ensures CB.Leads(config.breaker, old(Breaker()), old(now), calls, Breaker(), now)
      ensures metrics.counters == if IsNamespaceCacheable(req.ns)
        then Counted(old(metrics.counters), Family(req.ns), outcome) else old(metrics.counters)
      ensures IsNamespaceCacheable(req.ns) && outcome == Bypass ==> CB.IsOpen(Breaker(), now)
    {
      calls := [];
      if !IsNamespaceCacheable(req.ns) {
        return c.load(req), Bypass, [];
      }
      var open := IsCircuitOpen();
      if open {
        metrics.Record(req.ns, Bypass);
        return c.load(req), Bypass, [];
      }
      var versions, found;
      versions, found, outcome, calls := TryCache(req, c);
      if found.Some? {
        return found.value, Hit, calls;
      }
      result := c.load(req);
      if versions.Some? && IsCacheable(result) {
        var cacheKey := BuildEntryKey(req.ns, req.key, versions.value, req.deps);
        ghost var between, since := Breaker(), now;
        ghost var call := SafeSet(cacheKey, result);
        CB.LeadsOn(config.breaker, old(Breaker()), old(now), calls, between, since, call, now);
        calls := calls + [call];
      }
    }

    /**
     One call for every namespace, each once: all are started, in order, before any ends, and they end in
     any order. One whose turn comes while the circuit is open is skipped. A call that fails may have landed
     both INCRs of its namespace, only the first, or none. `bumped` are the namespaces the log reports.
     */
    method Invalidate(namespaces: seq<string>)
      returns (bumped: seq<string>, ghost starts: seq<nat>, ghost log: seq<Bump>)
      requires AllPositive(versionStore.client.values)
      modifies this`consecutiveFailures, this`circuitOpenUntil, this`now, versionStore.client
      ensures AllPositive(versionStore.client.values)
      ensures !config.enabled ==>
        && bumped == [] && log == [] && versionStore.client.values == old(versionStore.client.values)
        && Breaker() == old(Breaker())
      ensures config.enabled ==>
        && Started(Unique(namespaces), starts, old(now), now)
        && AllCalled(old(Breaker()), Unique(namespaces), starts, log)
        && Bumping(config, old(Breaker()), old(versionStore.client.values), Unique(namespaces), starts, log, bumped,
                   versionStore.client.values, Breaker(), now)
      ensures config.enabled && !CB.IsOpen(old(Breaker()), old(now)) && (forall e :: e in log ==> e.call.works) ==>
        && Elements(bumped) == Elements(namespaces)
        && forall n :: n in namespaces ==>
             Eff(versionStore.client.values, VersionKey(config.keyPrefix, n))
             == Eff(old(versionStore.client.values), VersionKey(config.keyPrefix, n)) + 1
    {
      bumped, starts, log := [], [], [];
      if !config.enabled { return; }
      var uniqueNamespaces := Unique(namespaces);
      var sent;
      sent, starts := StartBumps(uniqueNamespaces);
      bumped, log := EndBumps(uniqueNamespaces, sent, starts);
      NoneToEnd(old(Breaker()), uniqueNamespaces, starts, sent, log, now);
      if !CB.IsOpen(old(Breaker()), old(now)) && forall e :: e in log ==> e.call.works {
        AllBumped(config.keyPrefix, old(Breaker()), old(now), namespaces, starts, log,
                  old(versionStore.client.values), versionStore.client.values, now);
      }
    }

    /** The part of each call that runs at once: the look at the circuit. */
    method StartBumps(names: seq<string>) returns (sent: seq<bool>, ghost starts: seq<nat>)
      modifies this`now
      ensures Started(names, starts, old(now), now) && |sent| == |names|
      ensures forall i :: 0 <= i < |names| ==> (sent[i] <==> !CB.IsOpen(Breaker(), starts[i]))
    {
      sent, starts := [], [];
      for i := 0 to |names|
        invariant Started(names[..i], starts, old(now), now) && |sent| == i
        invariant forall k :: 0 <= k < i ==> (sent[k] <==> !CB.IsOpen(Breaker(), starts[k]))
      {
        var open := IsCircuitOpen();
        sent, starts := sent + [!open], starts + [now];
      }
    }

    /** The rest: some call that is under way ends, until none is. */
    method EndBumps(names: seq<string>, sent: seq<bool>, ghost starts: seq<nat>)
      returns (bumped: seq<string>, ghost log: seq<Bump>)
      requires |sent| == |names| && (forall j, k :: 0 <= j < k < |names| ==> names[j] != names[k])
      requires AllPositive(versionStore.client.values)
      requires |starts| == |names| && forall i :: 0 <= i < |names| ==>
        starts[i] <= now && (sent[i] <==> !CB.IsOpen(Breaker(), starts[i]))
      modifies this`consecutiveFailures, this`circuitOpenUntil, this`now, versionStore.client
      ensures now >= old(now) && ToEnd(names, sent, {}, log)
      ensures Bumping(config, old(Breaker()), old(versionStore.client.values), names, starts, log, bumped,
                      versionStore.client.values, Breaker(), now)
    {
      bumped, log := [], [];
      var pending := set i: nat | i < |names| && sent[i];
      while pending != {}
        invariant now >= old(now) && ToEnd(names, sent, pending, log)
        invariant Bumping(config, old(Breaker()), old(versionStore.client.values), names, starts, log, bumped,
                          versionStore.client.values, Breaker(), now)
        decreases |pending|
      {
        var i :| i in pending;
        ghost var before, between, since := versionStore.client.values, Breaker(), now;
        var ok := EndOp();
        BumpNamespace(VersionKey(config.keyPrefix, names[i]), ok);
        ghost var e := Bump(names[i], CB.Call(starts[i], now, ok));
        BumpingStep(config, old(Breaker()), old(versionStore.client.values), names, starts, log, bumped, before,
                    between, since, e, i, versionStore.client.values, now);
        ToEndStep(names, sent, pending, log, e, i);
        bumped := bumped + if ok then [names[i]] else [];
        log := log + [e];
        pending := pending - {i};
      }
    }

    /** The INCRs of one namespace, as far as they get. */
    method BumpNamespace(key: string, ok: bool)
      requires AllPositive(versionStore.client.values)
      modifies versionStore.client
      ensures AllPositive(versionStore.client.values)
      ensures Lands(key, ok, old(versionStore.client.values), versionStore.client.values)
    {
      var lands, halfLands: bool := *, *;
      if ok || lands {
        var next := versionStore.Incr(key);
      } else if halfLands {
        var next := versionStore.client.Incr(key);
      }
    }

    // -------------------------------------------------------------- bulk reads

    function CacheableIds(ids: seq<string>, opt: BulkOptions): seq<string> {
      Filter(ids, id => IsNamespaceCacheable(opt.namespaceFor(id)))
    }

    /** The bulk read with the counters its keys are printed from. */
    function BulkOf(opt: BulkOptions, c: Setting): Bulk
      reads versionStore.client
    {
      Bulk(c, opt, versionStore.client.values)
    }

    method SafeMget(keys: seq<string>) returns (ok: bool, values: seq<Value>, ghost call: CB.Call)
      modifies this`consecutiveFailures, this`circuitOpenUntil, this`now
      ensures old(now) <= call.start <= call.end == now && (call.works <==> ok)
      ensures Breaker() == CB.AfterCall(config.breaker, old(Breaker()), call)
      ensures ok ==> |values| == |keys|
      ensures ok ==> forall i :: 0 <= i < |keys| ==>
        values[i] == if keys[i] in cache.entries then cache.entries[keys[i]] else Undefined
    {
      var sent;
      ok, sent, call := ExecuteOp();
      values := seq(|keys|, i requires 0 <= i < |keys| reads cache =>
        if keys[i] in cache.entries then cache.entries[keys[i]] else Undefined);
    }

    /** A failed MSET may still have written any part of its entries. */
    method SafeMset(toSet: seq<(string, Value)>) returns (ghost call: CB.Call)
      modifies this`consecutiveFailures, this`circuitOpenUntil, this`now, cache
      ensures old(now) <= call.start <= call.end == now
      ensures Breaker() == CB.AfterCall(config.breaker, old(Breaker()), call)
      ensures WroteSome(toSet, old(cache.entries), cache.entries)
      ensures call.works ==> WroteAll(toSet, cache.entries)
    {
      var ok, sent;
      ok, sent, call := ExecuteOp();
      for i := 0 to |toSet|
        modifies cache
        invariant WroteSome(toSet, old(cache.entries), cache.entries)
        invariant ok ==> WroteAll(toSet[..i], cache.entries)
      {
        var thisOne: bool := *;
        if ok || (sent && thisOne) {
          cache.entries := cache.entries[toSet[i].0 := toSet[i].1];
        }
        assert toSet[..i + 1] == toSet[..i] + [toSet[i]];
      }
      assert toSet[..|toSet|] == toSet;
    }

    method KeysById(ids: seq<string>, opt: BulkOptions, versions: Versions, ghost c: Setting)
      returns (keyById: map<string, string>)
      requires c.prefix == config.keyPrefix
      requires BulkOf(opt, c).Versioned(ids, versions)
      ensures keyById.Keys == Elements(ids) && BulkOf(opt, c).AreKeys(keyById)
    {
      keyById := map[];
      for i := 0 to |ids|
        invariant keyById.Keys == Elements(ids[..i]) && BulkOf(opt, c).AreKeys(keyById)
      {
        var key := BuildEntryKey(opt.namespaceFor(ids[i]), opt.keyFor(ids[i]), versions, opt.dependsOn);
        assert ids[i] in ids;
        BulkOf(opt, c).PrintsKey(ids, ids[i], versions);
        keyById := keyById[ids[i] := key];
        assert ids[..i + 1] == ids[..i] + [ids[i]];
      }
      assert ids[..|ids|] == ids;
    }

    /** Splits the ids whose keys were looked up into those that hit, with their values, and the rest. */
    method Sift(ids: seq<string>, values: seq<Value>, ghost look: string -> Value, namespaceFor: string -> string)
      returns (result: map<string, Value>, missed: seq<string>, ghost outcomes: seq<CacheOutcome>)
      requires |values| == |ids|
      requires forall i :: 0 <= i < |ids| ==> values[i] == look(ids[i])
      modifies metrics
      ensures SiftedSoFar(ids, look, result, missed, outcomes, namespaceFor, old(metrics.counters), metrics.counters)
    {
      result, missed, outcomes := map[], [], [];
      for i := 0 to |ids|
        invariant SiftedSoFar(ids[..i], look, result, missed, outcomes, namespaceFor, old(metrics.counters),
          metrics.counters)
      {
        var id := ids[i];
        assert ids[..i + 1] == ids[..i] + [id];
        SiftStep(ids[..i], id, look, result, missed, outcomes, namespaceFor, old(metrics.counters), metrics.counters);
        if Present(values[i]) {
          result, outcomes := result[id := values[i]], outcomes + [Hit];
          metrics.Record(namespaceFor(id), Hit);
        } else {
          missed, outcomes := missed + [id], outcomes + [Miss];
          metrics.Record(namespaceFor(id), Miss);
        }
      }
      assert ids[..|ids|] == ids;
    }

    /** Ids no lookup could be made for count as bypassed while the circuit is open and as errors otherwise. */
    method RecordFailures(ids: seq<string>, namespaceFor: string -> string, resolved: bool)
      returns (ghost outcomes: seq<CacheOutcome>)
      modifies this`now, metrics
      ensures now >= old(now)
      ensures FailedSoFar(ids, outcomes, namespaceFor, old(metrics.counters), metrics.counters)
      ensures Refused(outcomes, resolved, Breaker(), old(now), now)
    {
      outcomes := [];
      for i := 0 to |ids|
        invariant FailedSoFar(ids[..i], outcomes, namespaceFor, old(metrics.counters), metrics.counters)
        invariant Refused(outcomes, resolved, Breaker(), old(now), now)
      {
        var open := IsCircuitOpen();
        var outcome := if !resolved && open then Bypass else Error;
        assert ids[..i + 1] == ids[..i] + [ids[i]];
        FailedStep(ids[..i], outcomes, namespaceFor, old(metrics.counters), metrics.counters, ids[i], outcome);
        outcomes := outcomes + [outcome];
        metrics.Record(namespaceFor(ids[i]), outcome);
      }
      assert ids[..|ids|] == ids;
    }

    /** The two round trips of a bulk read: the versions, then the entries under them. */
    method LookUp(ids: seq<string>, opt: BulkOptions, ghost c: Setting)
      returns (result: map<string, Value>, missed: seq<string>, keyById: map<string, string>,
        ghost outcomes: seq<CacheOutcome>, ghost calls: seq<CB.Call>)
      requires c.prefix == config.keyPrefix
      modifies this`consecutiveFailures, this`circuitOpenUntil, this`now, metrics
      ensures CB.Leads(config.breaker, old(Breaker()), old(now), calls, Breaker(), now) && |calls| <= 2
      ensures (ids == [] <==> calls == []) && Accounted(outcomes, calls, Breaker(), now)
      ensures Observed(BulkOf(opt, c), ids, outcomes, cache.entries)
      ensures multiset(missed) + multiset(HitIds(ids, outcomes)) == multiset(ids)
      ensures BulkOf(opt, c).AreKeys(keyById)
        && BulkOf(opt, c).Found(result, HitIds(ids, outcomes), cache.entries)
      ensures keyById.Keys == if calls != [] && calls[0].works then Elements(ids) else {}
      ensures metrics.counters == Recorded(old(metrics.counters), opt.namespaceFor, ids, outcomes)
    {
      result, missed, keyById, outcomes, calls := map[], ids, map[], [], [];
      if |ids| == 0 { return; }
      var names := seq(|ids|, i requires 0 <= i < |ids| => opt.namespaceFor(ids[i]));
      ghost var call;
      var versions;
      versions, call := ResolveVersions(names + opt.dependsOn);
      calls := [call];
      assert [call][1..] == [];
      if versions.None? {
        outcomes := RecordFailures(ids, opt.namespaceFor, false);
        NothingObserved(BulkOf(opt, c), ids, cache.entries, outcomes);
        return;
      }
      AllNamesRead(ids, names, BulkOf(opt, c), versions.value);
      keyById := KeysById(ids, opt, versions.value, c);
      ghost var between, since := Breaker(), now;
      result, missed, outcomes, call := LookUpEntries(ids, BulkOf(opt, c), keyById, opt.namespaceFor);
      CB.LeadsOn(config.breaker, old(Breaker()), old(now), calls, between, since, call, now);
      calls := calls + [call];
    }

    method LookUpEntries(ids: seq<string>, ghost bulk: Bulk, keyById: map<string, string>,
                         namespaceFor: string -> string)
      returns (result: map<string, Value>, missed: seq<string>, ghost outcomes: seq<CacheOutcome>, ghost call: CB.Call)
      requires keyById.Keys == Elements(ids) && bulk.AreKeys(keyById)
      modifies this`consecutiveFailures, this`circuitOpenUntil, this`now, metrics
      ensures old(now) <= call.start <= call.end <= now
      ensures Breaker() == CB.AfterCall(config.breaker, old(Breaker()), call)
      ensures forall o :: o in outcomes ==> if call.works then o == Hit || o == Miss else o == Error
      ensures Observed(bulk, ids, outcomes, cache.entries)
      ensures multiset(missed) + multiset(HitIds(ids, outcomes)) == multiset(ids)
      ensures bulk.Found(result, HitIds(ids, outcomes), cache.entries)
      ensures metrics.counters == Recorded(old(metrics.counters), namespaceFor, ids, outcomes)
    {
      var keys := seq(|ids|, i requires 0 <= i < |ids| => keyById[ids[i]]);
      var ok, values;
      ok, values, call := SafeMget(keys);
      if !ok {
        result, missed := map[], ids;
        outcomes := RecordFailures(ids, namespaceFor, true);
        NothingObserved(bulk, ids, cache.entries, outcomes);
        return;
      }
      ValuesAreLooks(bulk, ids, keyById, cache.entries, values);
      result, missed, outcomes := Sift(ids, values, bulk.Look(cache.entries), namespaceFor);
      SiftedIsObserved(bulk, ids, cache.entries, result, missed, outcomes, namespaceFor, old(metrics.counters),
                       metrics.counters);
    }

    /** What has to be written back: the cacheable answers for ids whose key is known. */
    method ToSet(missing: seq<string>, keyById: map<string, string>, loaded: map<string, Value>)
      returns (toSet: seq<(string, Value)>)
      ensures forall p :: p in toSet ==> exists id :: id in missing && IsBackfill(id, keyById, loaded, p)
      ensures forall id :: id in missing && id in keyById && id in loaded && IsCacheable(loaded[id]) ==>
        (keyById[id], loaded[id]) in toSet
    {
      toSet := [];
      for i := 0 to |missing|
        invariant forall p :: p in toSet ==> exists id :: id in missing && IsBackfill(id, keyById, loaded, p)
        invariant forall id :: id in missing[..i] && id in keyById && id in loaded && IsCacheable(loaded[id]) ==>
          (keyById[id], loaded[id]) in toSet
      {
        var id := missing[i];
        assert missing[..i + 1] == missing[..i] + [id];
        if id in keyById && id in loaded && IsCacheable(loaded[id]) {
          assert IsBackfill(id, keyById, loaded, (keyById[id], loaded[id]));
          toSet := toSet + [(keyById[id], loaded[id])];
        }
      }
      assert missing[..|missing|] == missing;
    }

    /**
     Writes the cacheable answers of the missed ids back, each under the key that missed: `keyed` are
     the missing ids that have one.
     */
    method Backfill(missing: seq<string>, keyById: map<string, string>, loaded: map<string, Value>, ghost bulk: Bulk,
                    ghost keyed: seq<string>)
      returns (ghost calls: seq<CB.Call>)
      requires bulk.AreKeys(keyById) && loaded == Answers(Elements(missing), bulk.opt, bulk.setting.load)
      requires forall id :: id in keyed ==> id in missing
      requires forall id :: id in missing && id in keyById ==> id in keyed
      modifies this`consecutiveFailures, this`circuitOpenUntil, this`now, cache
      ensures CB.AtMostOne(config.breaker, old(Breaker()), old(now), calls, Breaker(), now)
      ensures calls == [] ==> now == old(now)
      ensures Backfilled(bulk, keyed, keyById, calls, old(cache.entries), cache.entries)
    {
      var toSet := ToSet(missing, keyById, loaded);
      calls := [];
      BackfillIsNeeded(bulk, missing, keyed, keyById, loaded, toSet);
      if |toSet| > 0 {
        ghost var call := SafeMset(toSet);
        calls := [call];
        BackfillFits(bulk, missing, keyed, keyById, loaded, toSet, old(cache.entries), cache.entries);
        if call.works && Elements(keyed) <= keyById.Keys {
          BackfilledAreStored(bulk, missing, keyed, keyById, loaded, toSet, cache.entries);
        }
      }
    }

    /**
     The bulk read. Each id is looked up and stored under its key for the versions that all its names have
     now; `missing` is what the loader is called with. If what is found is right, the result is the
     loader's answer for all the ids, whichever operations fail; there are at most three, however many ids.
     */
    method BulkGetOrLoad(ids: seq<string>, opt: BulkOptions, c: Setting)
      returns (result: map<string, Value>, missing: seq<string>, ghost outcomes: seq<CacheOutcome>,
        ghost calls: seq<CB.Call>)
      requires c.prefix == config.keyPrefix
      modifies this`consecutiveFailures, this`circuitOpenUntil, this`now, cache, metrics
      ensures BulkOf(opt, c).AllRight(ids, old(cache.entries)) ==> result == Answers(Elements(ids), opt, c.load)
      ensures Disciplined(c.requests) && BulkOf(opt, c).Known(ids) ==>
        c.Keeps(versionStore.client.values, old(cache.entries), cache.entries)
      ensures BulkServed(BulkOf(opt, c), ids, CacheableIds(ids, opt), missing, outcomes, calls, old(cache.entries),
                         cache.entries)
      ensures Accounted(outcomes, calls, Breaker(), now)
      ensures metrics.counters == Recorded(old(metrics.counters), opt.namespaceFor, CacheableIds(ids, opt), outcomes)
      ensures CB.Leads(config.breaker, old(Breaker()), old(now), calls, Breaker(), now)
    {
      result, missing, outcomes, calls := map[], [], [], [];
      if |ids| == 0 {
        NothingToServe(BulkOf(opt, c), cache.entries);
        return;
      }
      result, missing, outcomes, calls := HydrateAll(ids, opt, c);
    }

    method HydrateAll(ids: seq<string>, opt: BulkOptions, c: Setting)
      returns (result: map<string, Value>, missing: seq<string>, ghost outcomes: seq<CacheOutcome>,
        ghost calls: seq<CB.Call>)
      requires c.prefix == config.keyPrefix
      modifies this`consecutiveFailures, this`circuitOpenUntil, this`now, cache, metrics
      ensures BulkOf(opt, c).AllRight(ids, old(cache.entries)) ==> result == Answers(Elements(ids), opt, c.load)
      ensures Disciplined(c.requests) && BulkOf(opt, c).Known(ids) ==>
        c.Keeps(versionStore.client.values, old(cache.entries), cache.entries)
      ensures BulkServed(BulkOf(opt, c), ids, CacheableIds(ids, opt), missing, outcomes, calls, old(cache.entries),
                         cache.entries)
      ensures Accounted(outcomes, calls, Breaker(), now)
      ensures metrics.counters == Recorded(old(metrics.counters), opt.namespaceFor, CacheableIds(ids, opt), outcomes)
      ensures CB.Leads(config.breaker, old(Breaker()), old(now), calls, Breaker(), now)
    {
      var keyById;
      ghost var missed;
      result, missing, keyById, missed, outcomes, calls := Gather(ids, opt, c);
      var found := result;
      ghost var lookups, between, since := calls, Breaker(), now;
      ghost var writes;
      result, writes := LoadMissing(found, missing, keyById, BulkOf(opt, c), missed);
      calls := lookups + writes;
      StillAccounted(BulkOf(opt, c), missed, keyById, old(cache.entries), cache.entries, outcomes, lookups, writes,
                     between, since, Breaker(), now);
      CB.LeadsOver(config.breaker, old(Breaker()), old(now), lookups, between, since, writes, Breaker(), now);
      BulkIsRight(BulkOf(opt, c), ids, CacheableIds(ids, opt), found, missing, missed, keyById, outcomes, lookups,
                  writes, old(cache.entries), cache.entries);
    }

    /** The call of the loader, if it is needed, and what follows it. */
    method LoadMissing(found: map<string, Value>, missing: seq<string>, keyById: map<string, string>, bulk: Bulk,
                       ghost keyed: seq<string>)
      returns (result: map<string, Value>, ghost writes: seq<CB.Call>)
      requires bulk.AreKeys(keyById) && forall id :: id in keyed ==> id in missing
      requires forall id :: id in missing && id in keyById ==> id in keyed
      modifies this`consecutiveFailures, this`circuitOpenUntil, this`now, cache
      ensures result == found + Answers(Elements(missing), bulk.opt, bulk.setting.load)
      ensures CB.AtMostOne(config.breaker, old(Breaker()), old(now), writes, Breaker(), now)
      ensures writes == [] ==> now == old(now)
      ensures Backfilled(bulk, keyed, keyById, writes, old(cache.entries), cache.entries)
    {
      result, writes := found, [];
      if |missing| > 0 {
        var loaded := Answers(Elements(missing), bulk.opt, bulk.setting.load);
        result := result + loaded;
        writes := Backfill(missing, keyById, loaded, bulk, keyed);
      } else {
        NothingMissed(bulk, keyed, keyById, cache.entries);
      }
    }

    /** Everything up to the call of the loader: what was found, and which ids are left for it. */
    method Gather(ids: seq<string>, opt: BulkOptions, ghost c: Setting)
      returns (result: map<string, Value>, missing: seq<string>, keyById: map<string, string>,
        ghost missed: seq<string>, ghost outcomes: seq<CacheOutcome>, ghost calls: seq<CB.Call>)
      requires c.prefix == config.keyPrefix
      modifies this`consecutiveFailures, this`circuitOpenUntil, this`now, metrics
      ensures CB.Leads(config.breaker, old(Breaker()), old(now), calls, Breaker(), now) && |calls| <= 2
      ensures (CacheableIds(ids, opt) == [] <==> calls == []) && Accounted(outcomes, calls, Breaker(), now)
      ensures Gathered(BulkOf(opt, c), ids, CacheableIds(ids, opt), result, missing, missed, keyById, outcomes,
                       cache.entries)
      ensures keyById.Keys == if calls != [] && calls[0].works then Elements(CacheableIds(ids, opt)) else {}
      ensures metrics.counters == Recorded(old(metrics.counters), opt.namespaceFor, CacheableIds(ids, opt), outcomes)
    {
      var cacheableIds := CacheableIds(ids, opt);
      var uncacheableIds := Filter(ids, id => !IsNamespaceCacheable(opt.namespaceFor(id)));
      FilterSplits(ids, id => IsNamespaceCacheable(opt.namespaceFor(id)),
        id => !IsNamespaceCacheable(opt.namespaceFor(id)));
      FilterSplits(ids, id => !IsNamespaceCacheable(opt.namespaceFor(id)),
        id => IsNamespaceCacheable(opt.namespaceFor(id)));
      var missedIds;
      result, missedIds, keyById, outcomes, calls := LookUp(cacheableIds, opt, c);
      missing, missed := uncacheableIds + missedIds, missedIds;
      GatheredAddsUp(BulkOf(opt, c), ids, cacheableIds, uncacheableIds, result, missedIds, keyById, outcomes,
                     cache.entries);
    }
  }
}
