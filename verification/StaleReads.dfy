/**
 Runs that leave an old result in the cache: after a commit that is not announced, and after a load
 whose early part was overtaken by an INCR.
 */
module StaleReads {
  import opened CacheProtocol
  import opened CacheSteps
  import opened EarlyParts
  import opened JsValues
  import opened EntryKeys
  import opened VersionStores

  /**
   The hypothesis on finished invalidations cannot be dropped: when the one INCR of a commit is
   skipped, a later read returns the old result.
   */
  lemma UnannouncedCommitGoesStale(env: Env, req: Request)
    requires req in env.requests && env.kind(req) == Direct && IsCacheable(env.load(req, 0, 0)) && Affects(env, 0, req)
    ensures exists before, after ::
      && Run(env, before).commits == 1 && Enabled(env, Run(env, before), Mget(1, req))
      && Delivers(Run(env, before + [Mget(1, req)] + after), 1, env.load(req, 0, 0))
      && !CurrentBetween(env, req, env.load(req, 0, 0), 1, Run(env, before + [Mget(1, req)] + after).commits)
  {
    var e := Entry(req, Resolve(map[], req), env.load(req, 0, 0), 0, 0);
    var before := Filled(req, e) + [Commit];
    Fills(env, req, e);
    RunStep(env, Filled(req, e), Commit);
    RunStep(env, before, Mget(1, req));
    RunStep(env, before + [Mget(1, req)], GetFinds(1));
    var t := Run(env, before + [Mget(1, req)] + [GetFinds(1)]);
    assert Delivers(t, 1, env.load(req, 0, 0)) && t.commits == 1;
  }

  /** One read fills the cache. */
  function Filled(req: Request, e: Entry): seq<Step> {
    [Mget(0, req)] + [GetFindsNothing(0)] + [Load(0)] + [SendSet(0)] + [SetLands(e)]
  }

  lemma Fills(env: Env, req: Request, e: Entry)
    requires req in env.requests && env.kind(req) == Direct
    requires e == Entry(req, Resolve(map[], req), env.load(req, 0, 0), 0, 0) && IsCacheable(e.value)
    ensures Run(env, Filled(req, e))
         == Initial.(store := map[EntryKey(env.prefix, req, e.vv) := e], sets := {e},
                     readers := map[0 := Returned(req, 0, {}, e.value, 0, 0)])
  {
    var a := [Mget(0, req)];
    var b := a + [GetFindsNothing(0)];
    var c := b + [Load(0)];
    RunStep(env, [], Mget(0, req));
    assert [] + [Mget(0, req)] == a;
    RunStep(env, a, GetFindsNothing(0));
    RunStep(env, b, Load(0));
    RunStep(env, c, SendSet(0));
    RunStep(env, c + [SendSet(0)], SetLands(e));
  }

  // ---------------------------------------------------------------- what an overtaken load leads to

  /**
   The reader has loaded a result whose early part misses the commit of a finished INCR, under versions
   still current.
   */
  ghost predicate HoldsOld(s: State, rid: nat, q: Request, e: Entry, l: Landing) {
    && rid in s.readers && s.readers[rid].Loaded? && s.readers[rid].versions == Some(e.vv)
    && e == Entry(s.readers[rid].req, e.vv, s.readers[rid].value, s.readers[rid].early, s.readers[rid].snap)
    && e.req == q && IsCacheable(e.value) && e.vv == Resolve(s.counters, q)
    && l in s.landed && l.ns in q.Names() && e.early <= l.commit
  }

  /** The state once the result is stored. */
  function Stored(env: Env, s: State, rid: nat, e: Entry): State
    requires rid in s.readers && s.readers[rid].Loaded?
  {
    var r := s.readers[rid];
    s.(sets := s.sets + {e}, store := s.store[EntryKey(env.prefix, e.req, e.vv) := e],
       readers := s.readers[rid := Returned(r.req, r.since, r.saw, r.value, r.early, r.snap)])
  }

  lemma StoresOld(env: Env, steps: seq<Step>, rid: nat, q: Request, e: Entry, l: Landing)
    requires HoldsOld(Run(env, steps), rid, q, e, l)
    ensures Run(env, steps + [SendSet(rid)] + [SetLands(e)]) == Stored(env, Run(env, steps), rid, e)
  {
    RunStep(env, steps, SendSet(rid));
    RunStep(env, steps + [SendSet(rid)], SetLands(e));
  }

  function FirstStep(env: Env, rid: nat, req: Request): Step {
    if env.kind(req) == Prefetches then Prefetch(rid, req) else Mget(rid, req)
  }

  function NextSteps(env: Env, rid: nat, req: Request): seq<Step> {
    (if env.kind(req) == Prefetches then [Mget(rid, req)] else []) + [GetFinds(rid)]
  }

  /** `e` is stored under the current versions. */
  ghost predicate StoredNow(env: Env, s: State, e: Entry) {
    && e.req in env.requests && IsCacheable(e.value) && e.vv == Resolve(s.counters, e.req)
    && EntryKey(env.prefix, e.req, e.vv) in s.store && s.store[EntryKey(env.prefix, e.req, e.vv)] == e
  }

  lemma MgetThenHit(env: Env, steps: seq<Step>, rid: nat, e: Entry)
    requires var s := Run(env, steps); StoredNow(env, s, e) && LooksAtVersions(env, s, rid, e.req)
    ensures var t := Run(env, steps + [Mget(rid, e.req)] + [GetFinds(rid)]);
      Delivers(t, rid, e.value) && t.commits == Run(env, steps).commits
  {
    var s := Run(env, steps);
    var t := Apply(env, s, Mget(rid, e.req));
    RunStep(env, steps, Mget(rid, e.req));
    assert t.store == s.store && t.commits == s.commits;
    assert t.readers[rid].Versioned? && t.readers[rid].vv == e.vv && t.readers[rid].req == e.req;
    RunStep(env, steps + [Mget(rid, e.req)], GetFinds(rid));
  }

  /** A later read of the same finds it. */
  lemma HitFollows(env: Env, steps: seq<Step>, rid: nat, e: Entry)
    requires StoredNow(env, Run(env, steps), e) && rid !in Run(env, steps).readers
    ensures Enabled(env, Run(env, steps), FirstStep(env, rid, e.req))
    ensures var t := Run(env, steps + [FirstStep(env, rid, e.req)] + NextSteps(env, rid, e.req));
      Delivers(t, rid, e.value) && t.commits == Run(env, steps).commits
  {
    if env.kind(e.req) == Prefetches {
      FetchesFirst(env, steps, rid, e);
      MgetThenHit(env, steps + [Prefetch(rid, e.req)], rid, e);
      assert steps + [Prefetch(rid, e.req)] + [Mget(rid, e.req)] + [GetFinds(rid)]
          == steps + [FirstStep(env, rid, e.req)] + NextSteps(env, rid, e.req);
    } else {
      MgetThenHit(env, steps, rid, e);
      assert steps + [Mget(rid, e.req)] + [GetFinds(rid)]
          == steps + [FirstStep(env, rid, e.req)] + NextSteps(env, rid, e.req);
    }
  }

  lemma FetchesFirst(env: Env, steps: seq<Step>, rid: nat, e: Entry)
    requires StoredNow(env, Run(env, steps), e) && rid !in Run(env, steps).readers && env.kind(e.req) == Prefetches
    ensures Enabled(env, Run(env, steps), Prefetch(rid, e.req))
    ensures var t := Run(env, steps + [Prefetch(rid, e.req)]);
      StoredNow(env, t, e) && LooksAtVersions(env, t, rid, e.req) && t.commits == Run(env, steps).commits
  {
    RunStep(env, steps, Prefetch(rid, e.req));
  }

  /** No result whose early part includes the commit is this one. */
  ghost predicate ShowsTheLack(env: Env, req: Request, value: Value, commit: nat) {
    forall early: nat, snap: nat :: commit < early ==> env.load(req, early, snap) != value
  }

  /** A run, a read that begins after it, and the read's answer, which is not wholly fresh. */
  ghost predicate GoesStale(env: Env, before: seq<Step>, start: Step, rid: nat, req: Request, after: seq<Step>,
                            value: Value) {
    && Starts(env, start, rid, req) && Enabled(env, Run(env, before), start)
    && Delivers(Run(env, before + [start] + after), rid, value)
    && !WhollyReflects(env, req, value, Run(env, before).landed, Run(env, before + [start] + after).commits)
  }

  /**
   The condition cannot be dropped: whenever an overtaken load can be stored under versions that are
   still current, the run goes on so that a later read, begun after the INCR finished, gets the old result.
   */
  lemma OvertakenLoadGoesStale(env: Env, steps: seq<Step>, rid: nat, q: Request, e: Entry, l: Landing, later: nat)
    requires HoldsOld(Run(env, steps), rid, q, e, l) && q in env.requests
    requires later !in Run(env, steps).readers && ShowsTheLack(env, q, e.value, l.commit)
    ensures GoesStale(env, steps + [SendSet(rid)] + [SetLands(e)], FirstStep(env, later, q), later, q,
      NextSteps(env, later, q), e.value)
  {
    var before := steps + [SendSet(rid)] + [SetLands(e)];
    StoresOld(env, steps, rid, q, e, l);
    HitFollows(env, before, later, e);
    assert l in Run(env, before).landed;
  }

  /** A row is fetched, a commit is made and announced, and only then the versions are read. */
  function FetchedTooEarly(q: Request): seq<Step> {
    [Prefetch(0, q)] + [Commit] + [SendIncr(0, 0, q.ns)] + [IncrLands(0)] + [IncrLands(0)] + [Mget(0, q)]
      + [GetFails(0)] + [Load(0)]
  }

  lemma IncrTwice(env: Env, steps: seq<Step>, ns: string)
    requires var s := Run(env, steps);
      s.incrs == map[0 := First(0, ns)] && ns !in s.counters && s.landed == {}
    ensures Run(env, steps + [IncrLands(0)] + [IncrLands(0)])
         == Run(env, steps).(counters := Run(env, steps).counters[ns := 2],
              incrs := map[0 := Finished(0, ns)], landed := {Landing(0, ns, 2)})
  {
    RunStep(env, steps, IncrLands(0));
    RunStep(env, steps + [IncrLands(0)], IncrLands(0));
  }

  lemma AnnouncedOnce(env: Env, steps: seq<Step>, ns: string)
    requires var s := Run(env, steps); s.incrs == map[] && ns !in s.counters && s.commits == 0 && s.landed == {}
    ensures Run(env, steps + [Commit] + [SendIncr(0, 0, ns)] + [IncrLands(0)] + [IncrLands(0)])
         == Run(env, steps).(commits := 1, counters := Run(env, steps).counters[ns := 2],
              incrs := map[0 := Finished(0, ns)], landed := {Landing(0, ns, 2)})
  {
    RunStep(env, steps, Commit);
    RunStep(env, steps + [Commit], SendIncr(0, 0, ns));
    IncrTwice(env, steps + [Commit] + [SendIncr(0, 0, ns)], ns);
  }

  lemma FetchedTooEarlyHoldsOld(env: Env, q: Request)
    requires q in env.requests && env.kind(q) == Prefetches && IsCacheable(env.load(q, 0, 1))
    ensures var s := Run(env, FetchedTooEarly(q));
      && HoldsOld(s, 0, q, Entry(q, Resolve(s.counters, q), env.load(q, 0, 1), 0, 1), Landing(0, q.ns, 2))
      && s.readers.Keys == {0}
  {
    var a := [Prefetch(0, q)];
    var b := a + [Commit] + [SendIncr(0, 0, q.ns)] + [IncrLands(0)] + [IncrLands(0)];
    RunStep(env, [], Prefetch(0, q));
    assert [] + [Prefetch(0, q)] == a;
    AnnouncedOnce(env, a, q.ns);
    RunStep(env, b, Mget(0, q));
    RunStep(env, b + [Mget(0, q)], GetFails(0));
    RunStep(env, b + [Mget(0, q)] + [GetFails(0)], Load(0));
  }

  /** So a read that fetches a row before it reads the versions does go stale. */
  lemma PrefetchedReadGoesStale(env: Env, q: Request)
    requires q in env.requests && env.kind(q) == Prefetches && IsCacheable(env.load(q, 0, 1))
    requires ShowsTheLack(env, q, env.load(q, 0, 1), 0)
    ensures exists before, start, rid, after :: GoesStale(env, before, start, rid, q, after, env.load(q, 0, 1))
  {
    var s := Run(env, FetchedTooEarly(q));
    var e := Entry(q, Resolve(s.counters, q), env.load(q, 0, 1), 0, 1);
    FetchedTooEarlyHoldsOld(env, q);
    OvertakenLoadGoesStale(env, FetchedTooEarly(q), 0, q, e, Landing(0, q.ns, 2), 1);
  }

  /**
   An inner read is cached; a commit is announced on the outer read's namespace and not yet on the
   inner one's; the outer read then takes the new version and builds on the old inner entry.
   */
  function BuiltOnOld(q: Request, i: Request, e: Entry): seq<Step> {
    [Mget(0, i)] + [GetFindsNothing(0)] + [Load(0)] + [SendSet(0)] + [SetLands(e)]
    + [Commit] + [SendIncr(0, 0, q.ns)] + [IncrLands(0)] + [IncrLands(0)]
    + [Mget(1, q)] + [GetFails(1)] + [Mget(2, i)] + [GetFinds(2)] + [LoadThrough(1, 2)]
  }

  lemma MissesAtNewVersion(env: Env, steps: seq<Step>, rid: nat, q: Request)
    requires var s := Run(env, steps); LooksAtVersions(env, s, rid, q) && rid !in s.readers
    ensures var s := Run(env, steps);
      Run(env, steps + [Mget(rid, q)] + [GetFails(rid)])
      == s.(readers := s.readers[rid := Missed(q, Some(Resolve(s.counters, q)), s.commits, s.landed, s.commits)])
  {
    RunStep(env, steps, Mget(rid, q));
    RunStep(env, steps + [Mget(rid, q)], GetFails(rid));
  }

  lemma HitsOldEntry(env: Env, steps: seq<Step>, rid: nat, e: Entry)
    requires var s := Run(env, steps); StoredNow(env, s, e) && LooksAtVersions(env, s, rid, e.req) && rid !in s.readers
    ensures var s := Run(env, steps);
      Run(env, steps + [Mget(rid, e.req)] + [GetFinds(rid)])
      == s.(readers := s.readers[rid := Returned(e.req, s.commits, s.landed, e.value, e.early, e.snap)])
  {
    var s := Run(env, steps);
    var t := Apply(env, s, Mget(rid, e.req));
    RunStep(env, steps, Mget(rid, e.req));
    assert t == s.(readers := s.readers[rid := Versioned(e.req, e.vv, s.commits, s.landed, s.commits)]);
    RunStep(env, steps + [Mget(rid, e.req)], GetFinds(rid));
  }

  lemma BuiltOnOldHoldsOld(env: Env, q: Request, i: Request)
    requires q in env.requests && env.kind(q) == Through && IsCacheable(env.load(q, 0, 1))
    requires i in env.requests && env.kind(i) == Direct && IsCacheable(env.load(i, 0, 0)) && q.ns !in i.Names()
    ensures var s := Run(env, BuiltOnOld(q, i, Entry(i, Resolve(map[], i), env.load(i, 0, 0), 0, 0)));
      && HoldsOld(s, 1, q, Entry(q, Resolve(s.counters, q), env.load(q, 0, 1), 0, 1), Landing(0, q.ns, 2))
      && s.readers.Keys == {0, 1, 2}
  {
    var e := Entry(i, Resolve(map[], i), env.load(i, 0, 0), 0, 0);
    var b := Filled(i, e) + [Commit] + [SendIncr(0, 0, q.ns)] + [IncrLands(0)] + [IncrLands(0)];
    Fills(env, i, e);
    AnnouncedOnce(env, Filled(i, e), q.ns);
    MissesAtNewVersion(env, b, 1, q);
    var c := b + [Mget(1, q)] + [GetFails(1)];
    assert Resolve(map[q.ns := 2], i) == Resolve(map[], i);
    HitsOldEntry(env, c, 2, e);
    LoadsThrough(env, c + [Mget(2, i)] + [GetFinds(2)], q, i);
    assert c + [Mget(2, i)] + [GetFinds(2)] + [LoadThrough(1, 2)] == BuiltOnOld(q, i, e);
  }

  lemma LoadsThrough(env: Env, steps: seq<Step>, q: Request, i: Request)
    requires env.kind(q) == Through && env.kind(i) == Direct
    requires var s := Run(env, steps);
      && s.commits == 1 && s.readers.Keys == {0, 1, 2} && s.landed == {Landing(0, q.ns, 2)}
      && s.readers[1] == Missed(q, Some(Resolve(s.counters, q)), 1, s.landed, 1)
      && s.readers[2].Returned? && s.readers[2].req == i && s.readers[2].since == 1 && s.readers[2].saw == s.landed
      && s.readers[2].snap == 0 && IsCacheable(env.load(q, 0, 1))
    ensures var s := Run(env, steps + [LoadThrough(1, 2)]);
      && HoldsOld(s, 1, q, Entry(q, Resolve(s.counters, q), env.load(q, 0, 1), 0, 1), Landing(0, q.ns, 2))
      && s.readers.Keys == {0, 1, 2}
  {
    RunStep(env, steps, LoadThrough(1, 2));
  }

  /** So does a read that builds on another cached one whose names do not include its own. */
  lemma ReadThroughGoesStale(env: Env, q: Request, i: Request)
    requires q in env.requests && env.kind(q) == Through && IsCacheable(env.load(q, 0, 1))
    requires i in env.requests && env.kind(i) == Direct && IsCacheable(env.load(i, 0, 0)) && q.ns !in i.Names()
    requires ShowsTheLack(env, q, env.load(q, 0, 1), 0)
    ensures exists before, start, rid, after :: GoesStale(env, before, start, rid, q, after, env.load(q, 0, 1))
  {
    var steps := BuiltOnOld(q, i, Entry(i, Resolve(map[], i), env.load(i, 0, 0), 0, 0));
    var e := Entry(q, Resolve(Run(env, steps).counters, q), env.load(q, 0, 1), 0, 1);
    BuiltOnOldHoldsOld(env, q, i);
    OvertakenLoadGoesStale(env, steps, 1, q, e, Landing(0, q.ns, 2), 3);
  }
}
