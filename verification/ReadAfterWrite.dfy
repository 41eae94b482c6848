/**
 Writes and reads of one caller, one after the other: after a commit and the invalidation that follows
 it, a read of either kind gives what the new database holds, for all that the commit changed and the
 invalidation reached. `was` and `now` are the loaders before and after the commit.
 */
module ReadAfterWrite {
  import opened JsValues
  import opened EntryKeys
  import opened VersionStores
  import opened CacheCoherence
  import opened CacheReads
  import opened CacheBumps
  import opened Lists
  import opened CacheServiceModel
  import CB = CircuitBreaker

  /** What holds of an empty cache, and what every read and every announced write leaves so. */
  ghost predicate Ready(service: CacheService, c: Setting)
    reads service.cache, service.versionStore.client
  {
    && c.prefix == service.config.keyPrefix && Disciplined(c.requests)
    && AllPositive(service.versionStore.client.values)
    && c.Coherent(service.versionStore.client.values, service.cache.entries)
    && c.NoneAhead(service.versionStore.client.values, service.cache.entries)
  }

  predicate Follows(was: Setting, now: Setting) {
    now.prefix == was.prefix && now.requests == was.requests
  }

  /** The answer of the read did not change, or one of its names was bumped. */
  ghost predicate Reached(was: Setting, now: Setting, r: Request, bumped: seq<string>) {
    now.load(r) == was.load(r) || exists n :: n in bumped && n in r.Names()
  }

  /** The end of a write: the database has been changed, and the names are bumped. */
  method Write(service: CacheService, names: seq<string>, was: Setting, now: Setting)
    returns (bumped: seq<string>, ghost log: seq<Bump>)
    requires Ready(service, was) && Follows(was, now)
    modifies service`consecutiveFailures, service`circuitOpenUntil, service`now, service.versionStore.client
    ensures service.config.enabled ==>
      forall r :: r in now.requests && Reached(was, now, r, bumped) ==>
        now.Right(r, service.versionStore.client.values, service.cache.entries)
    ensures service.config.enabled && was.Announced(now, bumped) ==> Ready(service, now)
    ensures service.config.enabled && !CB.IsOpen(old(service.Breaker()), old(service.now)) ==>
      (forall e :: e in log ==> e.call.works) ==> Elements(bumped) == Elements(names)
  {
    ghost var before := service.versionStore.client.values;
    ghost var starts;
    bumped, starts, log := service.Invalidate(names);
    if service.config.enabled {
      BumpsRaise(was, log, before, service.versionStore.client.values);
      WriteReaches(was, now, bumped, before, service.versionStore.client.values, service.cache.entries);
    }
  }

  lemma WriteReaches(was: Setting, now: Setting, bumped: seq<string>, before: Counters, after: Counters,
                     entries: map<string, Value>)
    requires Follows(was, now) && was.Coherent(before, entries) && was.NoneAhead(before, entries)
    requires was.Grew(before, after) && forall n :: n in bumped ==> was.Version(n, before) < was.Version(n, after)
    ensures forall r :: r in now.requests && Reached(was, now, r, bumped) ==> now.Right(r, after, entries)
    ensures was.Announced(now, bumped) ==> now.Coherent(after, entries) && now.NoneAhead(after, entries)
  {
    forall r | r in now.requests && Reached(was, now, r, bumped) ensures now.Right(r, after, entries) {
      assert was.Right(r, before, entries);
      was.RightAfterCommitIff(now, r, before, after, entries);
    }
    if was.Announced(now, bumped) {
      was.CoherentAfterCommit(now, bumped, before, after, entries);
    }
  }

  /** A read that a write reached gives the new answer, whatever was cached and whichever operations fail. */
  method GetAfterWrite(service: CacheService, names: seq<string>, was: Setting, now: Setting, req: Request)
    returns (bumped: seq<string>, result: Value)
    requires Ready(service, was) && Follows(was, now) && req in was.requests
    modifies service`consecutiveFailures, service`circuitOpenUntil, service`now, service.versionStore.client,
      service.cache, service.metrics
    ensures !service.config.enabled || Reached(was, now, req, bumped) ==> result == now.load(req)
    ensures service.config.enabled && was.Announced(now, bumped) ==> Ready(service, now)
  {
    ghost var log, outcome, calls;
    bumped, log := Write(service, names, was, now);
    result, outcome, calls := service.GetOrLoad(req, now);
  }

  /** The same for all the ids of a bulk read. */
  method BulkGetAfterWrite(service: CacheService, names: seq<string>, was: Setting, now: Setting, ids: seq<string>,
                           opt: BulkOptions)
    returns (bumped: seq<string>, result: map<string, Value>)
    requires Ready(service, was) && Follows(was, now) && forall id :: id in ids ==> opt.Req(id) in was.requests
    requires service.config.enabled
    modifies service`consecutiveFailures, service`circuitOpenUntil, service`now, service.versionStore.client,
      service.cache, service.metrics
    ensures (forall id :: id in ids ==> Reached(was, now, opt.Req(id), bumped)) ==>
      result == Answers(Elements(ids), opt, now.load)
    ensures was.Announced(now, bumped) ==> Ready(service, now)
  {
    ghost var log, outcomes, calls;
    bumped, log := Write(service, names, was, now);
    var missing;
    result, missing, outcomes, calls := service.BulkGetOrLoad(ids, opt, now);
  }
}
