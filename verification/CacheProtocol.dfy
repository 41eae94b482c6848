/**
 What holds over every run of the cache: the invariant that each step keeps, and what a caller gets of
 it, freshness of reads and, with callers that announce what they change, atomic reads.
 */
module CacheProtocol {
  import opened CacheSteps
  import opened JsValues
  import opened EntryKeys
  import opened VersionStores

  // ---------------------------------------------------------------- what every step keeps

  /** Versions read earlier: no newer than the counters, and what they already include was committed before `bound`. */
  ghost predicate Behind(s: State, req: Request, vv: Versions, bound: nat) {
    && (forall n :: n in req.Names() ==> Eff(vv, n) <= Eff(s.counters, n))
    && (forall l :: l in s.landed && l.ns in req.Names() && l.version <= Eff(vv, l.ns) ==> l.commit < bound)
  }

  ghost predicate GoodEntry(env: Env, s: State, e: Entry) {
    && e.req in env.requests && Shows(env, s, e.req, e.value, e.early, e.snap) && IsCacheable(e.value)
    && Behind(s, e.req, e.vv, e.snap)
  }

  /** `value` is what the loader gives for the two parts; a direct read has only one. */
  ghost predicate Shows(env: Env, s: State, req: Request, value: Value, early: nat, snap: nat) {
    early <= snap <= s.commits && value == env.load(req, early, snap) && (env.kind(req) == Direct ==> early == snap)
  }

  /** Everything announced on one of the read's namespaces before it began is in what the loader itself read. */
  ghost predicate Fresh(env: Env, s: State, r: Reader)
    requires r.Returned?
  {
    && Shows(env, s, r.req, r.value, r.early, r.snap)
    && forall l :: l in r.saw && l.ns in r.req.Names() ==> l.commit < r.snap
  }

  ghost predicate GoodReader(env: Env, s: State, r: Reader) {
    && r.req in env.requests && r.since <= s.commits && r.saw <= s.landed
    && (forall l :: l in r.saw ==> l.commit < r.since)
    && match r
       case Fetched(req, _, _) => env.kind(req) == Prefetches
       case Versioned(req, vv, since, saw, asOf) =>
         since <= asOf <= s.commits && Behind(s, req, vv, asOf) && Includes(saw, req, vv)
       case Missed(req, versions, since, saw, asOf) =>
         && since <= asOf <= s.commits
         && (versions.Some? ==> Behind(s, req, versions.value, asOf) && Includes(saw, req, versions.value))
       case Loaded(req, versions, since, _, value, early, snap) =>
         && since <= snap && Shows(env, s, req, value, early, snap)
         && (versions.Some? ==> Behind(s, req, versions.value, snap))
       case Returned(_, _, _, _, _, _) => Fresh(env, s, r)
  }

  /** The versions include what had finished when the read began. */
  ghost predicate Includes(saw: set<Landing>, req: Request, vv: Versions) {
    forall l :: l in saw && l.ns in req.Names() ==> l.version <= Eff(vv, l.ns)
  }

  ghost predicate GoodStore(env: Env, s: State) {
    && (forall k :: k in s.store ==>
          k == EntryKey(env.prefix, s.store[k].req, s.store[k].vv) && GoodEntry(env, s, s.store[k]))
    && (forall e :: e in s.sets ==> GoodEntry(env, s, e))
  }

  ghost predicate GoodCounters(s: State) {
    && (forall l :: l in s.landed ==> l.commit < s.commits && l.version <= Eff(s.counters, l.ns))
    && (forall id :: id in s.incrs && !s.incrs[id].Finished? ==> s.incrs[id].commit < s.commits)
    && (forall id :: id in s.incrs && s.incrs[id].Second? ==> s.incrs[id].ns in s.counters)
    && (forall n :: n in s.counters ==> s.counters[n] >= 1)
  }

  ghost predicate Inv(env: Env, s: State) {
    && GoodCounters(s)
    && GoodStore(env, s)
    && (forall rid :: rid in s.readers ==> GoodReader(env, s, s.readers[rid]))
  }

  /** What may happen to the shared part of the state in one step: commits and counters only grow. */
  ghost predicate Later(s: State, t: State) {
    && s.commits <= t.commits && s.landed <= t.landed
    && (forall n :: Eff(s.counters, n) <= Eff(t.counters, n))
    && (forall l :: l in t.landed && l !in s.landed ==> l.version > Eff(s.counters, l.ns))
  }

  lemma EntryKept(env: Env, s: State, t: State, e: Entry)
    requires Later(s, t) && GoodEntry(env, s, e)
    ensures GoodEntry(env, t, e)
  {
  }

  lemma ReaderKept(env: Env, s: State, t: State, r: Reader)
    requires Later(s, t) && GoodReader(env, s, r)
    ensures GoodReader(env, t, r)
  {
  }

  /** An INCR that finishes leaves the effective version strictly above what it was. */
  lemma IncrRaises(s: State, id: nat)
    requires GoodCounters(s) && id in s.incrs && !s.incrs[id].Finished?
    ensures var t := AfterIncr(s, id);
            && Later(s, t) && GoodCounters(t)
            && (t.incrs[id].Finished? ==> Eff(s.counters, s.incrs[id].ns) < Eff(t.counters, s.incrs[id].ns))
  {
  }

  lemma StepIsLater(env: Env, s: State, step: Step)
    requires GoodCounters(s)
    ensures Later(s, Apply(env, s, step)) && GoodCounters(Apply(env, s, step))
  {
    if Enabled(env, s, step) && step.IncrLands? {
      IncrRaises(s, step.id);
    }
  }

  /**
   The step the comment in the source relies on: the entry found under the versions just read
   was loaded after every commit those versions account for.
   */
  lemma HitIsFresh(env: Env, s: State, r: Reader, e: Entry)
    requires Disciplined(env.requests) && r.Versioned? && GoodReader(env, s, r) && GoodEntry(env, s, e)
    requires Key(env, r) == EntryKey(env.prefix, e.req, e.vv)
    ensures r.req == e.req && Fresh(env, s, Returned(r.req, r.since, r.saw, e.value, e.early, e.snap))
  {
    KeysNeverCollide(env.requests, env.prefix, r.req, r.vv, e.req, e.vv);
    forall l | l in r.saw && l.ns in r.req.Names() ensures l.commit < e.snap {
      assert l.version <= Eff(r.vv, l.ns) == Eff(e.vv, l.ns);
    }
  }

  lemma ReaderAdvances(env: Env, s: State, rid: nat, step: Step)
    requires Disciplined(env.requests) && GoodStore(env, s) && rid in s.readers && GoodReader(env, s, s.readers[rid])
    requires AdvancesRead(step, rid) && Enabled(env, s, step)
    requires step.LoadThrough? ==> GoodReader(env, s, s.readers[step.inner])
    ensures GoodReader(env, s, AfterRead(env, s, rid, step))
    ensures step.SendSet? ==>
      var r := s.readers[rid]; GoodEntry(env, s, Entry(r.req, r.versions.value, r.value, r.early, r.snap))
  {
    if step.GetFinds? {
      HitIsFresh(env, s, s.readers[rid], s.store[Key(env, s.readers[rid])]);
    }
  }

  lemma MgetIsGood(env: Env, s: State, rid: nat, req: Request)
    requires GoodCounters(s) && req in env.requests
    requires rid in s.readers ==> GoodReader(env, s, s.readers[rid])
    ensures var b := Beginning(s, rid, req);
      && GoodReader(env, s, Versioned(req, Resolve(s.counters, req), b.since, b.saw, s.commits))
      && GoodReader(env, s, Missed(req, None, b.since, b.saw, s.commits))
      && (env.kind(req) == Prefetches ==> GoodReader(env, s, Fetched(req, s.commits, s.landed)))
  {
    var vv := Resolve(s.counters, req);
    assert forall n :: n in req.Names() ==> Eff(vv, n) == Eff(s.counters, n);
  }

  lemma SetKept(env: Env, s: State, step: Step, e: Entry)
    requires Inv(env, s) && Disciplined(env.requests) && Enabled(env, s, step)
    requires e in Apply(env, s, step).sets
    ensures GoodEntry(env, Apply(env, s, step), e)
  {
    StepIsLater(env, s, step);
    if e !in s.sets {
      ReaderAdvances(env, s, step.rid, step);
    }
    EntryKept(env, s, Apply(env, s, step), e);
  }

  /** What is in the store was there before or has just landed under its own key. */
  lemma StoreComesFrom(env: Env, s: State, step: Step, k: string)
    requires k in Apply(env, s, step).store
    ensures var e := Apply(env, s, step).store[k];
      (k in s.store && e == s.store[k]) || (e in s.sets && k == EntryKey(env.prefix, e.req, e.vv))
  {
  }

  lemma StoredKept(env: Env, s: State, step: Step, k: string)
    requires Inv(env, s) && k in Apply(env, s, step).store
    ensures var e := Apply(env, s, step).store[k];
            k == EntryKey(env.prefix, e.req, e.vv) && GoodEntry(env, Apply(env, s, step), e)
  {
    StoreComesFrom(env, s, step, k);
    StepIsLater(env, s, step);
    EntryKept(env, s, Apply(env, s, step), Apply(env, s, step).store[k]);
  }

  lemma ReadersKept(env: Env, s: State, step: Step, rid: nat)
    requires Inv(env, s) && Disciplined(env.requests) && Enabled(env, s, step)
    requires rid in Apply(env, s, step).readers
    ensures GoodReader(env, Apply(env, s, step), Apply(env, s, step).readers[rid])
  {
    var t := Apply(env, s, step);
    StepIsLater(env, s, step);
    if rid in s.readers && s.readers[rid] == t.readers[rid] {
      ReaderKept(env, s, t, s.readers[rid]);
    } else if step.Prefetch? || step.Mget? || step.NoVersions? {
      MgetIsGood(env, s, rid, step.req);
      ReaderKept(env, s, t, t.readers[rid]);
    } else {
      ReaderAdvances(env, s, rid, step);
      ReaderKept(env, s, t, t.readers[rid]);
    }
  }

  lemma StepKeepsInv(env: Env, s: State, step: Step)
    requires Inv(env, s) && Disciplined(env.requests)
    ensures Inv(env, Apply(env, s, step))
  {
    if Enabled(env, s, step) {
      StepIsLater(env, s, step);
      var t := Apply(env, s, step);
      forall e | e in t.sets ensures GoodEntry(env, t, e) { SetKept(env, s, step, e); }
      forall k | k in t.store
        ensures k == EntryKey(env.prefix, t.store[k].req, t.store[k].vv) && GoodEntry(env, t, t.store[k])
      {
        StoredKept(env, s, step, k);
      }
      forall rid | rid in t.readers ensures GoodReader(env, t, t.readers[rid]) {
        ReadersKept(env, s, step, rid);
      }
    }
  }

  lemma {:induction false} InvAlways(env: Env, steps: seq<Step>)
    requires Disciplined(env.requests)
    ensures Inv(env, Run(env, steps))
  {
    if steps != [] {
      InvAlways(env, steps[..|steps| - 1]);
      StepKeepsInv(env, Run(env, steps[..|steps| - 1]), steps[|steps| - 1]);
    }
  }

  // ---------------------------------------------------------------- what needs no care with keys

  lemma {:induction false} CountersAlways(env: Env, steps: seq<Step>)
    ensures GoodCounters(Run(env, steps))
  {
    if steps != [] {
      CountersAlways(env, steps[..|steps| - 1]);
      StepIsLater(env, Run(env, steps[..|steps| - 1]), steps[|steps| - 1]);
    }
  }

  /** Nothing that stands for "nothing found" is in the cache or on its way there. */
  ghost predicate ResultsOnly(s: State) {
    (forall k :: k in s.store ==> IsCacheable(s.store[k].value)) && forall e :: e in s.sets ==> IsCacheable(e.value)
  }

  lemma StepKeepsResultsOnly(env: Env, s: State, step: Step)
    requires ResultsOnly(s)
    ensures ResultsOnly(Apply(env, s, step))
  {
    var t := Apply(env, s, step);
    forall e | e in t.sets ensures IsCacheable(e.value) {
      assert e in s.sets || (step.SendSet? && IsCacheable(s.readers[step.rid].value));
    }
    forall k | k in t.store ensures IsCacheable(t.store[k].value) {
      StoreComesFrom(env, s, step, k);
    }
  }

  /** No run ever caches a result that stands for "nothing found". */
  lemma {:induction false} OnlyResultsAreCached(env: Env, steps: seq<Step>)
    ensures ResultsOnly(Run(env, steps))
  {
    if steps != [] {
      OnlyResultsAreCached(env, steps[..|steps| - 1]);
      StepKeepsResultsOnly(env, Run(env, steps[..|steps| - 1]), steps[|steps| - 1]);
    }
  }

  ghost predicate Grows(s: State, t: State) {
    s.commits <= t.commits && forall n :: Eff(s.counters, n) <= Eff(t.counters, n)
  }

  /** Counters only grow, however INCRs interleave. */
  lemma {:induction false} RunGrows(env: Env, before: seq<Step>, after: seq<Step>)
    ensures Grows(Run(env, before), Run(env, before + after))
  {
    if after == [] {
      assert before + after == before;
    } else {
      var steps, last := before + after, |after| - 1;
      assert steps[..|steps| - 1] == before + after[..last];
      RunGrows(env, before, after[..last]);
      CountersAlways(env, before + after[..last]);
      StepIsLater(env, Run(env, before + after[..last]), after[last]);
    }
  }

  /** However INCRs interleave, one that has finished has raised the effective version since it was under way. */
  lemma {:induction false} FinishedIncrWasSeen(env: Env, before: seq<Step>, after: seq<Step>, id: nat)
    requires id in Run(env, before).incrs && !Run(env, before).incrs[id].Finished?
    ensures RaisedSince(Run(env, before), Run(env, before + after), id)
  {
    if after == [] {
      assert before + after == before;
    } else {
      var steps, last := before + after, |after| - 1;
      assert steps[..|steps| - 1] == before + after[..last];
      FinishedIncrWasSeen(env, before, after[..last], id);
      RunGrows(env, before, after[..last]);
      CountersAlways(env, before + after[..last]);
      StepRaises(env, Run(env, before), Run(env, before + after[..last]), after[last], id);
    }
  }

  ghost predicate RaisedSince(s: State, t: State, id: nat)
    requires id in s.incrs
  {
    var n := s.incrs[id].ns;
    && id in t.incrs && t.incrs[id].ns == n
    && (t.incrs[id].Finished? ==> Eff(s.counters, n) < Eff(t.counters, n))
  }

  lemma StepRaises(env: Env, s: State, t: State, step: Step, id: nat)
    requires GoodCounters(t) && id in s.incrs && RaisedSince(s, t, id) && Grows(s, t)
    ensures RaisedSince(s, Apply(env, t, step), id)
  {
    StepIsLater(env, t, step);
    if step == IncrLands(id) && !t.incrs[id].Finished? {
      IncrRaises(t, id);
    }
  }

  // ---------------------------------------------------------------- what a caller of the cache gets

  /** A read keeps its request and what it saw at its start until the end. */
  ghost predicate SameRead(r: Reader, req: Request, since: nat, saw: set<Landing>) {
    r.req == req && r.since == since && r.saw == saw
  }

  lemma StepRemembers(env: Env, s: State, step: Step, rid: nat)
    requires rid in s.readers
    ensures rid in Apply(env, s, step).readers
    ensures var r := s.readers[rid]; SameRead(Apply(env, s, step).readers[rid], r.req, r.since, r.saw)
  {
  }

  lemma {:induction false} ReadRemembers(env: Env, before: seq<Step>, after: seq<Step>, rid: nat)
    requires rid in Run(env, before).readers
    ensures rid in Run(env, before + after).readers
    ensures var r := Run(env, before).readers[rid];
            SameRead(Run(env, before + after).readers[rid], r.req, r.since, r.saw)
  {
    if after == [] {
      assert before + after == before;
    } else {
      var steps, last := before + after, |after| - 1;
      assert steps[..|steps| - 1] == before + after[..last];
      ReadRemembers(env, before, after[..last], rid);
      StepRemembers(env, Run(env, before + after[..last]), after[last], rid);
    }
  }

  /** The step with which a read begins. */
  ghost predicate Starts(env: Env, step: Step, rid: nat, req: Request) {
    if env.kind(req) == Prefetches then step == Prefetch(rid, req)
    else step == Mget(rid, req) || step == NoVersions(rid, req)
  }

  /**
   What the loader itself read includes every commit in `landed` on the read's names, and no more than
   `commits`; a direct loader read everything itself.
   */
  ghost predicate Reflects(env: Env, req: Request, value: Value, landed: set<Landing>, commits: nat) {
    exists early: nat, snap: nat :: early <= snap <= commits && value == env.load(req, early, snap)
      && Covers(landed, req, snap) && (env.kind(req) == Direct ==> early == snap)
  }

  ghost predicate Covers(landed: set<Landing>, req: Request, snap: nat) {
    forall l :: l in landed && l.ns in req.Names() ==> l.commit < snap
  }

  /** `value` is what the loader gives for the database after `j` commits, for some `low <= j <= high`. */
  ghost predicate CurrentBetween(env: Env, req: Request, value: Value, low: nat, high: nat) {
    exists j: nat :: low <= j <= high && value == env.load(req, j, j)
  }

  ghost predicate Delivers(s: State, rid: nat, value: Value) {
    rid in s.readers && s.readers[rid].Returned? && s.readers[rid].value == value
  }

  /**
   Freshness: a read that begins after some INCRs have finished returns what its loader gives when all
   that the loader itself reads includes every one of their commits, whatever else runs, fails, is
   evicted or lands late, and whatever the other reads build on.
   */
  lemma ReadsAreFresh(env: Env, before: seq<Step>, start: Step, rid: nat, req: Request, after: seq<Step>, value: Value)
    requires Disciplined(env.requests)
    requires Starts(env, start, rid, req) && Enabled(env, Run(env, before), start)
    requires Delivers(Run(env, before + [start] + after), rid, value)
    ensures Reflects(env, req, value, Run(env, before).landed, Run(env, before + [start] + after).commits)
  {
    var s, t := Run(env, before + [start]), Run(env, before + [start] + after);
    assert (before + [start])[..|before|] == before;
    assert SameRead(s.readers[rid], req, Run(env, before).commits, Run(env, before).landed);
    ReadRemembers(env, before + [start], after, rid);
    InvAlways(env, before + [start] + after);
    var r := t.readers[rid];
    assert GoodReader(env, t, r);
    assert Covers(Run(env, before).landed, req, r.snap);
  }

  /** Commit `j` changes what `r` would load. */
  predicate Affects(env: Env, j: nat, r: Request) {
    env.load(r, j, j) != env.load(r, j + 1, j + 1)
  }

  /** The callers' duty: a commit that changes what a read would load invalidates a namespace of that read. */
  ghost predicate Announces(env: Env, bumps: nat -> set<string>) {
    forall r, j: nat :: r in env.requests && Affects(env, j, r) ==>
      exists n :: n in bumps(j) && n in r.Names()
  }

  /** The read's own steps to its end when it asks the cache for nothing more. */
  function WithoutCache(r: Reader, rid: nat): seq<Step> {
    match r
    case Fetched(req, _, _) => [NoVersions(rid, req), Load(rid), ReturnUnstored(rid)]
    case Versioned(_, _, _, _, _) => [GetFails(rid), Load(rid), ReturnUnstored(rid)]
    case Missed(_, _, _, _, _) => [Load(rid), ReturnUnstored(rid)]
    case Loaded(_, _, _, _, _, _, _) => [ReturnUnstored(rid)]
    case Returned(_, _, _, _, _, _) => []
  }

  /** The read has come to its end with the loader's answer, unless it was past its load, and nothing else moved. */
  ghost predicate FinishesFrom(env: Env, s: State, rid: nat, t: State)
    requires rid in s.readers
  {
    var r := s.readers[rid];
    && t.store == s.store && t.counters == s.counters && t.commits == s.commits
    && t.readers.Keys == s.readers.Keys && t.readers[rid].Returned? && t.readers[rid].req == r.req
    && (!r.Loaded? && !r.Returned? ==>
          t.readers[rid].value
          == env.load(r.req, if env.kind(r.req) == Prefetches then r.since else s.commits, s.commits))
  }

  lemma LoadedFinishes(env: Env, steps: seq<Step>, rid: nat)
    requires rid in Run(env, steps).readers && Run(env, steps).readers[rid].Loaded?
    ensures var t := Run(env, steps + [ReturnUnstored(rid)]);
      && FinishesFrom(env, Run(env, steps), rid, t)
      && t.readers[rid].value == Run(env, steps).readers[rid].value
  {
    RunStep(env, steps, ReturnUnstored(rid));
  }

  lemma MissedFinishes(env: Env, steps: seq<Step>, rid: nat)
    requires rid in Run(env, steps).readers && Run(env, steps).readers[rid].Missed?
    ensures FinishesFrom(env, Run(env, steps), rid, Run(env, steps + [Load(rid), ReturnUnstored(rid)]))
  {
    RunStep(env, steps, Load(rid));
    LoadedFinishes(env, steps + [Load(rid)], rid);
    assert steps + [Load(rid)] + [ReturnUnstored(rid)] == steps + [Load(rid), ReturnUnstored(rid)];
  }

  /** A first step that gives up on the cache. */
  lemma UnaskedFinishes(env: Env, steps: seq<Step>, rid: nat, first: Step)
    requires rid in Run(env, steps).readers && Enabled(env, Run(env, steps), first)
    requires var r := Run(env, steps).readers[rid];
      first == GetFails(rid) || (r.Fetched? && first == NoVersions(rid, r.req))
    ensures FinishesFrom(env, Run(env, steps), rid, Run(env, steps + [first, Load(rid), ReturnUnstored(rid)]))
  {
    RunStep(env, steps, first);
    MissedFinishes(env, steps + [first], rid);
    assert steps + [first] + [Load(rid), ReturnUnstored(rid)] == steps + [first, Load(rid), ReturnUnstored(rid)];
  }

  /**
   No read depends on the cache to come to its end: its own steps lead it there from anywhere, and a read
   that has not loaded yet returns what its loader gives for the database as it is, with the row it fetched.
   */
  lemma ReadsCanFinish(env: Env, steps: seq<Step>, rid: nat)
    requires Disciplined(env.requests) && rid in Run(env, steps).readers
    ensures var s := Run(env, steps);
      FinishesFrom(env, s, rid, Run(env, steps + WithoutCache(s.readers[rid], rid)))
  {
    var s := Run(env, steps);
    var r := s.readers[rid];
    InvAlways(env, steps);
    assert GoodReader(env, s, r);
    match r
    case Fetched(req, _, _) => UnaskedFinishes(env, steps, rid, NoVersions(rid, req));
    case Versioned(_, _, _, _, _) => UnaskedFinishes(env, steps, rid, GetFails(rid));
    case Missed(_, _, _, _, _) => MissedFinishes(env, steps, rid);
    case Loaded(_, _, _, _, _, _, _) => LoadedFinishes(env, steps, rid);
    case Returned(_, _, _, _, _, _) => assert steps + [] == steps;
  }

  /** Every commit so far has had all its invalidations finished. */
  ghost predicate Settled(s: State, bumps: nat -> set<string>) {
    forall j: nat, n :: j < s.commits && n in bumps(j) ==> exists l :: l in s.landed && l.commit == j && l.ns == n
  }

  lemma {:induction false} UnchangedBetween(env: Env, r: Request, low: nat, high: nat)
    requires low <= high
    requires forall j: nat :: low <= j < high ==> !Affects(env, j, r)
    ensures env.load(r, low, low) == env.load(r, high, high)
  {
    if low < high {
      assert !Affects(env, high - 1, r);
      UnchangedBetween(env, r, low, high - 1);
    }
  }

  lemma SettledCommitIsCovered(env: Env, bumps: nat -> set<string>, s: State, req: Request, snap: nat, j: nat)
    requires Announces(env, bumps) && Settled(s, bumps) && Covers(s.landed, req, snap)
    requires req in env.requests && j < s.commits && Affects(env, j, req)
    ensures j < snap
  {
  }

  /**
   With callers that announce what they change, a direct read that begins when all invalidations are
   finished is atomic: it returns what the loader gives for the database at some moment
   between its start and its end.
   */
  lemma SettledReadsAreAtomic(env: Env, bumps: nat -> set<string>,
                              before: seq<Step>, start: Step, rid: nat, req: Request, after: seq<Step>, value: Value)
    requires Disciplined(env.requests) && Announces(env, bumps) && env.kind(req) == Direct
    requires Starts(env, start, rid, req) && Enabled(env, Run(env, before), start)
    requires Settled(Run(env, before), bumps)
    requires Delivers(Run(env, before + [start] + after), rid, value)
    ensures CurrentBetween(env, req, value, Run(env, before).commits, Run(env, before + [start] + after).commits)
  {
    var s, t := Run(env, before), Run(env, before + [start] + after);
    ReadsAreFresh(env, before, start, rid, req, after, value);
    assert before + [start] + after == before + ([start] + after);
    RunGrows(env, before, [start] + after);
    var early: nat, snap: nat :| early <= snap <= t.commits && value == env.load(req, early, snap)
      && Covers(s.landed, req, snap) && early == snap;
    if snap < s.commits {
      forall j: nat | snap <= j < s.commits ensures !Affects(env, j, req) {
        if Affects(env, j, req) { SettledCommitIsCovered(env, bumps, s, req, snap, j); }
      }
      UnchangedBetween(env, req, snap, s.commits);
    }
  }
}
