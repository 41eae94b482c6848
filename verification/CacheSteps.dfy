/**
 The cache under every interleaving of readers and writers.

 A writer commits and afterwards may send an INCR for each namespace it invalidates; a reader
 MGETs versions, GETs the entry printed from them, and on anything but a hit loads from the
 database and SETs the entry under the versions it read first. Some loaders bring a row that
 was fetched before the versions were read, and some build on what another read got through the
 cache. An operation may be skipped, fail, or be given up on: giving up does not cancel it, so a
 SET or an INCR that was sent may land at any later moment (a SET even repeatedly) or never.
 Entries may disappear at any moment; counters do not.
 */
module CacheSteps {
  import opened JsValues
  import opened EntryKeys
  import opened VersionStores

  /**
   Where a loader has its data from. A direct one reads everything itself. Another builds on a row that
   was fetched before the versions were read, or on what some direct read got through the cache.
   */
  datatype Kind = Direct | Prefetches | Through

  /**
   `load(r, early, late)` is what the loader of `r` returns when the part it does not read itself shows
   the database after `early` commits and the rest after `late`; for a direct read both are the same.
   */
  datatype Env = Env(prefix: string, requests: set<Request>, load: (Request, nat, nat) -> Value, kind: Request -> Kind)

  /** A cached value with where it came from: the versions in its key and the commits its loader saw. */
  datatype Entry = Entry(req: Request, vv: Versions, value: Value, early: nat, snap: nat)

  /** A finished INCR: the commit it announces and the counter it left behind. */
  datatype Landing = Landing(commit: nat, ns: string, version: nat)

  /** `next > 1` ends an INCR; on a missing counter it goes round once more. */
  datatype Incr =
    | First(commit: nat, ns: string)
    | Second(commit: nat, ns: string)
    | Finished(commit: nat, ns: string)

  /**
   `since` counts the commits and `saw` holds the finished INCRs at the moment the read began: when it
   fetched its row, or else when it looked at the versions (or found it could not). `asOf` counts the
   commits when it looked at the versions.
   */
  datatype Reader =
    | Fetched(req: Request, since: nat, saw: set<Landing>)
    | Versioned(req: Request, vv: Versions, since: nat, saw: set<Landing>, asOf: nat)
    | Missed(req: Request, versions: Option<Versions>, since: nat, saw: set<Landing>, asOf: nat)
    | Loaded(
        req: Request, versions: Option<Versions>, since: nat, saw: set<Landing>, value: Value, early: nat, snap: nat)
    | Returned(req: Request, since: nat, saw: set<Landing>, value: Value, early: nat, snap: nat)

  datatype State = State(
    commits: nat,
    counters: Counters,
    store: map<string, Entry>,
    sets: set<Entry>,
    incrs: map<nat, Incr>,
    landed: set<Landing>,
    readers: map<nat, Reader>)

  const Initial := State(0, map[], map[], {}, map[], {}, map[])

  datatype Step =
    | Commit
    | SendIncr(id: nat, commit: nat, ns: string)
    | IncrLands(id: nat)
    | Prefetch(rid: nat, req: Request)
    | Mget(rid: nat, req: Request)
    | NoVersions(rid: nat, req: Request)
    | GetFinds(rid: nat)
    | GetFindsNothing(rid: nat)
    | GetFails(rid: nat)
    | Load(rid: nat)
    | LoadThrough(rid: nat, inner: nat)
    | SendSet(rid: nat)
    | ReturnUnstored(rid: nat)
    | SetLands(entry: Entry)
    | Evict(key: string)

  ghost predicate Enabled(env: Env, s: State, step: Step) {
    match step
    case Commit => true
    case SendIncr(id, commit, ns) => id !in s.incrs && commit < s.commits
    case IncrLands(id) => id in s.incrs && !s.incrs[id].Finished?
    case Prefetch(rid, req) => rid !in s.readers && req in env.requests && env.kind(req) == Prefetches
    case Mget(rid, req) => LooksAtVersions(env, s, rid, req)
    case NoVersions(rid, req) => LooksAtVersions(env, s, rid, req)
    case GetFinds(rid) =>
      && rid in s.readers && s.readers[rid].Versioned?
      && Key(env, s.readers[rid]) in s.store && Present(s.store[Key(env, s.readers[rid])].value)
    case GetFindsNothing(rid) =>
      && rid in s.readers && s.readers[rid].Versioned?
      && (Key(env, s.readers[rid]) in s.store ==> !Present(s.store[Key(env, s.readers[rid])].value))
    case GetFails(rid) => rid in s.readers && s.readers[rid].Versioned?
    case Load(rid) => rid in s.readers && s.readers[rid].Missed?
    case LoadThrough(rid, inner) =>
      && rid in s.readers && s.readers[rid].Missed? && env.kind(s.readers[rid].req) == Through
      && inner in s.readers && IsInner(env, s.readers[rid], s.readers[inner])
    case SendSet(rid) =>
      rid in s.readers && s.readers[rid].Loaded? && s.readers[rid].versions.Some? && IsCacheable(s.readers[rid].value)
    case ReturnUnstored(rid) => rid in s.readers && s.readers[rid].Loaded?
    case SetLands(entry) => entry in s.sets
    case Evict(key) => true
  }

  /** A read looks at the versions first, unless it fetches a row before. */
  ghost predicate LooksAtVersions(env: Env, s: State, rid: nat, req: Request) {
    && req in env.requests
    && if env.kind(req) == Prefetches then rid in s.readers && s.readers[rid].Fetched? && s.readers[rid].req == req
       else rid !in s.readers
  }

  /** A finished direct read that began after the outer read had missed. Several such reads count as the oldest. */
  predicate IsInner(env: Env, outer: Reader, inner: Reader) {
    && inner.Returned? && env.kind(inner.req) == Direct
    && outer.Missed? && outer.saw <= inner.saw && outer.asOf <= inner.since
  }

  function Key(env: Env, r: Reader): string
    requires r.Versioned?
  {
    EntryKey(env.prefix, r.req, r.vv)
  }

  /** The versions an MGET brings back; a missing counter reads as 1. */
  function Resolve(counters: Counters, req: Request): Versions {
    map n | n in req.Names() :: Eff(counters, n)
  }

  ghost function AfterIncr(s: State, id: nat): State
    requires id in s.incrs && !s.incrs[id].Finished?
  {
    var op := s.incrs[id];
    var next := RawIncr(s.counters, op.ns);
    var t := s.(counters := s.counters[op.ns := next]);
    if op.First? && next <= 1 then
      t.(incrs := s.incrs[id := Second(op.commit, op.ns)])
    else
      t.(incrs := s.incrs[id := Finished(op.commit, op.ns)], landed := s.landed + {Landing(op.commit, op.ns, next)})
  }

  predicate AdvancesRead(step: Step, rid: nat) {
    match step
    case GetFinds(r) => r == rid
    case GetFindsNothing(r) => r == rid
    case GetFails(r) => r == rid
    case Load(r) => r == rid
    case LoadThrough(r, _) => r == rid
    case SendSet(r) => r == rid
    case ReturnUnstored(r) => r == rid
    case _ => false
  }

  ghost function AfterRead(env: Env, s: State, rid: nat, step: Step): Reader
    requires Enabled(env, s, step) && rid in s.readers
    requires AdvancesRead(step, rid)
  {
    var r := s.readers[rid];
    if step.GetFinds? then
      var e := s.store[Key(env, r)];
      Returned(r.req, r.since, r.saw, e.value, e.early, e.snap)
    else if step.Load? || step.LoadThrough? then
      var early := EarlyPart(env, s, step);
      Loaded(r.req, r.versions, r.since, r.saw, env.load(r.req, early, s.commits), early, s.commits)
    else if step.SendSet? || step.ReturnUnstored? then
      Returned(r.req, r.since, r.saw, r.value, r.early, r.snap)
    else
      Missed(r.req, Some(r.vv), r.since, r.saw, r.asOf)
  }

  /** The commits that the part the loader does not read itself shows. */
  ghost function EarlyPart(env: Env, s: State, step: Step): nat
    requires Enabled(env, s, step) && (step.Load? || step.LoadThrough?)
  {
    if step.LoadThrough? then s.readers[step.inner].snap
    else if env.kind(s.readers[step.rid].req) == Prefetches then s.readers[step.rid].since
    else s.commits
  }

  /** Where a read begins. */
  ghost function Beginning(s: State, rid: nat, req: Request): Reader {
    if rid in s.readers then s.readers[rid] else Fetched(req, s.commits, s.landed)
  }

  /** A step that is not enabled changes nothing, so every sequence of steps is a run. */
  ghost function Apply(env: Env, s: State, step: Step): State {
    if !Enabled(env, s, step) then s else
    match step
    case Commit => s.(commits := s.commits + 1)
    case SendIncr(id, commit, ns) => s.(incrs := s.incrs[id := First(commit, ns)])
    case IncrLands(id) => AfterIncr(s, id)
    case Prefetch(rid, req) => s.(readers := s.readers[rid := Beginning(s, rid, req)])
    case Mget(rid, req) =>
      var b := Beginning(s, rid, req);
      s.(readers := s.readers[rid := Versioned(req, Resolve(s.counters, req), b.since, b.saw, s.commits)])
    case NoVersions(rid, req) =>
      var b := Beginning(s, rid, req);
      s.(readers := s.readers[rid := Missed(req, None, b.since, b.saw, s.commits)])
    case SendSet(rid) =>
      var r := s.readers[rid];
      s.(sets := s.sets + {Entry(r.req, r.versions.value, r.value, r.early, r.snap)},
         readers := s.readers[rid := AfterRead(env, s, rid, step)])
    case SetLands(e) => s.(store := s.store[EntryKey(env.prefix, e.req, e.vv) := e])
    case Evict(key) => s.(store := s.store - {key})
    case _ => s.(readers := s.readers[step.rid := AfterRead(env, s, step.rid, step)])
  }

  ghost function Run(env: Env, steps: seq<Step>): State {
    if steps == [] then Initial else Apply(env, Run(env, steps[..|steps| - 1]), steps[|steps| - 1])
  }

  /** A run written out one step at a time. */
  lemma RunStep(env: Env, steps: seq<Step>, step: Step)
    ensures Run(env, steps + [step]) == Apply(env, Run(env, steps), step)
  {
  }
}
