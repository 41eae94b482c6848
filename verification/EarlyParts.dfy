/**
 The part of a loader's data that it does not read itself: a row fetched before the versions were read,
 or what another read got through the cache. When it keeps up with the versions, and that reads are
 fresh in all their parts where no load is overtaken.
 */
module EarlyParts {
  import opened CacheProtocol
  import opened CacheSteps
  import opened JsValues
  import opened EntryKeys
  import opened VersionStores

  /**
   The part that was there before the load includes all that the versions account for, and all that had
   finished at the start.
   */
  ghost predicate EarlyPartKeepsUp(env: Env, s: State, step: Step)
    requires Enabled(env, s, step) && (step.Load? || step.LoadThrough?)
  {
    var r, early := s.readers[step.rid], EarlyPart(env, s, step);
    (r.versions.Some? ==> Behind(s, r.req, r.versions.value, early)) && Covers(r.saw, r.req, early)
  }

  /** A load of `q` whose early part was overtaken by an INCR. */
  ghost predicate Overtaken(env: Env, s: State, step: Step, q: Request) {
    && (step.Load? || step.LoadThrough?) && Enabled(env, s, step) && s.readers[step.rid].req == q
    && !EarlyPartKeepsUp(env, s, step)
  }

  ghost predicate NeverOvertaken(env: Env, q: Request, steps: seq<Step>) {
    steps == [] ||
    var before, last := steps[..|steps| - 1], steps[|steps| - 1];
    NeverOvertaken(env, q, before) && !Overtaken(env, Run(env, before), last, q)
  }

  /** Everything of `q`, in the cache or on its way, shows in both parts what its versions account for. */
  ghost predicate WholeEntry(s: State, q: Request, e: Entry) {
    e.req == q ==> Behind(s, q, e.vv, e.early)
  }

  ghost predicate WholeReader(s: State, q: Request, r: Reader) {
    r.req == q ==>
      match r
      case Loaded(_, versions, _, saw, _, early, _) =>
        (versions.Some? ==> Behind(s, q, versions.value, early)) && Covers(saw, q, early)
      case Returned(_, _, saw, _, early, _) => Covers(saw, q, early)
      case _ => true
  }

  ghost predicate Whole(s: State, q: Request) {
    && (forall k :: k in s.store ==> WholeEntry(s, q, s.store[k]))
    && (forall e :: e in s.sets ==> WholeEntry(s, q, e))
    && (forall rid :: rid in s.readers ==> WholeReader(s, q, s.readers[rid]))
  }

  lemma WholeKept(s: State, t: State, q: Request, r: Reader)
    requires Later(s, t) && WholeReader(s, q, r)
    ensures WholeReader(t, q, r)
  {
  }

  lemma WholeEntryKept(s: State, t: State, q: Request, e: Entry)
    requires Later(s, t) && WholeEntry(s, q, e)
    ensures WholeEntry(t, q, e)
  {
  }

  lemma WholeHit(env: Env, s: State, q: Request, rid: nat)
    requires Inv(env, s) && Disciplined(env.requests) && Whole(s, q) && Enabled(env, s, GetFinds(rid))
    ensures WholeReader(s, q, AfterRead(env, s, rid, GetFinds(rid)))
  {
    var r := s.readers[rid];
    var e := s.store[Key(env, r)];
    assert GoodReader(env, s, r) && WholeEntry(s, q, e);
    KeysNeverCollide(env.requests, env.prefix, r.req, r.vv, e.req, e.vv);
    if r.req == q {
      forall l | l in r.saw && l.ns in q.Names() ensures l.commit < e.early {
        assert l.version <= Eff(r.vv, l.ns) == Eff(e.vv, l.ns);
      }
    }
  }

  lemma ReaderStaysWhole(env: Env, s: State, step: Step, q: Request, rid: nat)
    requires Inv(env, s) && Disciplined(env.requests) && Whole(s, q) && Enabled(env, s, step)
    requires !Overtaken(env, s, step, q) && rid in Apply(env, s, step).readers
    ensures WholeReader(Apply(env, s, step), q, Apply(env, s, step).readers[rid])
  {
    var t := Apply(env, s, step);
    StepIsLater(env, s, step);
    ReaderComesFrom(env, s, step, rid);
    if AdvancesRead(step, rid) {
      if step.GetFinds? {
        WholeHit(env, s, q, rid);
      }
      assert WholeReader(s, q, t.readers[rid]);
    }
    WholeKept(s, t, q, t.readers[rid]);
  }

  /** A reader is as it was, has just begun or looked at the versions, or has advanced. */
  lemma ReaderComesFrom(env: Env, s: State, step: Step, rid: nat)
    requires Enabled(env, s, step) && rid in Apply(env, s, step).readers
    ensures var r := Apply(env, s, step).readers[rid];
      || (rid in s.readers && r == s.readers[rid])
      || r.Fetched? || r.Versioned? || r.Missed?
      || (rid in s.readers && AdvancesRead(step, rid) && r == AfterRead(env, s, rid, step))
    ensures AdvancesRead(step, rid) ==>
      rid in s.readers && Apply(env, s, step).readers[rid] == AfterRead(env, s, rid, step)
  {
  }

  lemma StepKeepsWhole(env: Env, s: State, step: Step, q: Request)
    requires Inv(env, s) && Disciplined(env.requests) && Whole(s, q) && !Overtaken(env, s, step, q)
    ensures Whole(Apply(env, s, step), q)
  {
    if Enabled(env, s, step) {
      var t := Apply(env, s, step);
      StepIsLater(env, s, step);
      forall rid | rid in t.readers ensures WholeReader(t, q, t.readers[rid]) {
        ReaderStaysWhole(env, s, step, q, rid);
      }
      forall e | e in t.sets ensures WholeEntry(t, q, e) {
        assert e in s.sets || (step.SendSet? && WholeReader(s, q, s.readers[step.rid]));
        WholeEntryKept(s, t, q, e);
      }
      forall k | k in t.store ensures WholeEntry(t, q, t.store[k]) {
        StoreComesFrom(env, s, step, k);
        WholeEntryKept(s, t, q, t.store[k]);
      }
    }
  }

  lemma {:induction false} WholeAlways(env: Env, q: Request, steps: seq<Step>)
    requires Disciplined(env.requests) && NeverOvertaken(env, q, steps)
    ensures Whole(Run(env, steps), q)
  {
    if steps != [] {
      WholeAlways(env, q, steps[..|steps| - 1]);
      InvAlways(env, steps[..|steps| - 1]);
      StepKeepsWhole(env, Run(env, steps[..|steps| - 1]), steps[|steps| - 1], q);
    }
  }

  /** Both parts include every commit in `landed` on the read's names. */
  ghost predicate WhollyReflects(env: Env, req: Request, value: Value, landed: set<Landing>, commits: nat) {
    exists early: nat, snap: nat ::
      early <= snap <= commits && value == env.load(req, early, snap) && Covers(landed, req, early)
  }

  /**
   Whatever a loader builds on, its reads are wholly fresh in every run in which no load of it is
   overtaken: the early part of each load includes what the versions it stores under account for.
   */
  lemma UnovertakenReadsAreFresh(env: Env, before: seq<Step>, start: Step, rid: nat, req: Request, after: seq<Step>,
                                 value: Value)
    requires Disciplined(env.requests) && NeverOvertaken(env, req, before + [start] + after)
    requires Starts(env, start, rid, req) && Enabled(env, Run(env, before), start)
    requires Delivers(Run(env, before + [start] + after), rid, value)
    ensures WhollyReflects(env, req, value, Run(env, before).landed, Run(env, before + [start] + after).commits)
  {
    var s, t := Run(env, before + [start]), Run(env, before + [start] + after);
    assert (before + [start])[..|before|] == before;
    assert SameRead(s.readers[rid], req, Run(env, before).commits, Run(env, before).landed);
    ReadRemembers(env, before + [start], after, rid);
    InvAlways(env, before + [start] + after);
    WholeAlways(env, req, before + [start] + after);
    var r := t.readers[rid];
    assert GoodReader(env, t, r) && WholeReader(t, req, r);
    assert Covers(Run(env, before).landed, req, r.early);
  }

  // ---------------------------------------------------------------- when a fetched row is overtaken

  /** What a reader still knows of the versions it read. */
  predicate StillHas(r: Reader, req: Request, vv: Versions, since: nat, saw: set<Landing>) {
    && r.req == req && r.since == since && r.saw == saw
    && match r
       case Fetched(_, _, _) => false
       case Versioned(_, ww, _, _, _) => ww == vv
       case Missed(_, versions, _, _, _) => versions == Some(vv)
       case Loaded(_, versions, _, _, _, _, _) => versions == Some(vv)
       case Returned(_, _, _, _, _, _) => true
  }

  lemma StepStillHas(env: Env, s: State, step: Step, rid: nat, req: Request, vv: Versions, since: nat,
                     saw: set<Landing>)
    requires rid in s.readers && StillHas(s.readers[rid], req, vv, since, saw)
    ensures rid in Apply(env, s, step).readers && StillHas(Apply(env, s, step).readers[rid], req, vv, since, saw)
  {
  }

  /** From `s` to `t` the reader keeps its versions, and what they account for stays the same. */
  ghost predicate KeepsVersions(s: State, t: State, rid: nat, req: Request, vv: Versions, since: nat,
                                saw: set<Landing>, bound: nat) {
    && rid in t.readers && StillHas(t.readers[rid], req, vv, since, saw)
    && (forall n :: n in req.Names() ==> Eff(vv, n) <= Eff(t.counters, n))
    && (Behind(s, req, vv, bound) <==> Behind(t, req, vv, bound))
  }

  lemma StepKeepsVersions(env: Env, s: State, t: State, step: Step, rid: nat, req: Request, vv: Versions,
                          since: nat, saw: set<Landing>, bound: nat)
    requires GoodCounters(t) && KeepsVersions(s, t, rid, req, vv, since, saw, bound)
    ensures KeepsVersions(s, Apply(env, t, step), rid, req, vv, since, saw, bound)
  {
    StepIsLater(env, t, step);
    StepStillHas(env, t, step, rid, req, vv, since, saw);
    AccountsStay(t, Apply(env, t, step), req, vv, bound);
  }

  lemma {:induction false} VersionsStay(env: Env, before: seq<Step>, after: seq<Step>, rid: nat, req: Request,
                                        vv: Versions, since: nat, saw: set<Landing>, bound: nat)
    requires KeepsVersions(Run(env, before), Run(env, before), rid, req, vv, since, saw, bound)
    ensures KeepsVersions(Run(env, before), Run(env, before + after), rid, req, vv, since, saw, bound)
  {
    if after == [] {
      assert before + after == before;
    } else {
      var init, last := before + after[..|after| - 1], after[|after| - 1];
      VersionsStay(env, before, after[..|after| - 1], rid, req, vv, since, saw, bound);
      CountersAlways(env, init);
      StepKeepsVersions(env, Run(env, before), Run(env, init), last, rid, req, vv, since, saw, bound);
      RunStep(env, init, last);
      assert before + after == init + [last];
    }
  }

  lemma AccountsStay(s: State, t: State, req: Request, vv: Versions, bound: nat)
    requires Later(s, t) && forall n :: n in req.Names() ==> Eff(vv, n) <= Eff(s.counters, n)
    ensures Behind(s, req, vv, bound) <==> Behind(t, req, vv, bound)
    ensures forall n :: n in req.Names() ==> Eff(vv, n) <= Eff(t.counters, n)
  {
    assert forall l :: l in t.landed && l.ns in req.Names() && l.version <= Eff(vv, l.ns) ==> l in s.landed;
  }

  /**
   The exact condition, at the moment the versions are read: the load that follows keeps up if and only
   if no INCR of a commit after the row was fetched has finished on one of the read's names.
   */
  lemma FetchedRowKeepsUpIff(env: Env, before: seq<Step>, rid: nat, req: Request, after: seq<Step>)
    requires env.kind(req) == Prefetches && rid in Run(env, before).readers && Run(env, before).readers[rid].Fetched?
    requires Enabled(env, Run(env, before), Mget(rid, req))
    requires var t := Run(env, before + [Mget(rid, req)] + after); rid in t.readers && t.readers[rid].Missed?
    ensures var s := Run(env, before);
      EarlyPartKeepsUp(env, Run(env, before + [Mget(rid, req)] + after), Load(rid))
      <==> Covers(s.landed, req, s.readers[rid].since)
  {
    var s, m := Run(env, before), Run(env, before + [Mget(rid, req)]);
    var vv, since, saw := Resolve(s.counters, req), s.readers[rid].since, s.readers[rid].saw;
    RunStep(env, before, Mget(rid, req));
    assert forall n :: n in req.Names() ==> Eff(vv, n) == Eff(s.counters, n);
    CountersAlways(env, before);
    VersionsStay(env, before + [Mget(rid, req)], after, rid, req, vv, since, saw, since);
    assert Behind(m, req, vv, since) <==> Covers(s.landed, req, since);
    SawItsPastAlways(env, before);
  }

  /**
   The same for a loader that builds on another read: its load keeps up if and only if what the other
   read returned was loaded after the commit of every INCR of the outer names that had finished when the
   versions were read.
   */
  lemma BuiltPartKeepsUpIff(env: Env, before: seq<Step>, rid: nat, req: Request, after: seq<Step>, inner: nat)
    requires env.kind(req) == Through && Enabled(env, Run(env, before), Mget(rid, req))
    requires Enabled(env, Run(env, before + [Mget(rid, req)] + after), LoadThrough(rid, inner))
    ensures var t := Run(env, before + [Mget(rid, req)] + after);
      EarlyPartKeepsUp(env, t, LoadThrough(rid, inner))
      <==> Covers(Run(env, before).landed, req, t.readers[inner].snap)
  {
    var s, m, t := Run(env, before), Run(env, before + [Mget(rid, req)]), Run(env, before + [Mget(rid, req)] + after);
    var vv, snap := Resolve(s.counters, req), t.readers[inner].snap;
    RunStep(env, before, Mget(rid, req));
    assert forall n :: n in req.Names() ==> Eff(vv, n) == Eff(s.counters, n);
    CountersAlways(env, before);
    VersionsStay(env, before + [Mget(rid, req)], after, rid, req, vv, s.commits, s.landed, snap);
    assert Behind(m, req, vv, snap) <==> Covers(s.landed, req, snap);
  }

  /** So it always keeps up when the names of the other read hold all of its own. */
  lemma WiderInnerKeepsUp(env: Env, before: seq<Step>, rid: nat, req: Request, after: seq<Step>, inner: nat)
    requires Disciplined(env.requests)
    requires env.kind(req) == Through && Enabled(env, Run(env, before), Mget(rid, req))
    requires Enabled(env, Run(env, before + [Mget(rid, req)] + after), LoadThrough(rid, inner))
    requires var i := Run(env, before + [Mget(rid, req)] + after).readers[inner].req;
      forall n :: n in req.Names() ==> n in i.Names()
    ensures EarlyPartKeepsUp(env, Run(env, before + [Mget(rid, req)] + after), LoadThrough(rid, inner))
  {
    var s, t := Run(env, before), Run(env, before + [Mget(rid, req)] + after);
    BuiltPartKeepsUpIff(env, before, rid, req, after, inner);
    RunStep(env, before, Mget(rid, req));
    assert SameRead(Run(env, before + [Mget(rid, req)]).readers[rid], req, s.commits, s.landed);
    ReadRemembers(env, before + [Mget(rid, req)], after, rid);
    InvAlways(env, before + [Mget(rid, req)] + after);
    assert GoodReader(env, t, t.readers[inner]);
  }

  /** What had finished when the row was fetched was committed before. */
  ghost predicate SawItsPast(s: State) {
    forall rid :: rid in s.readers && s.readers[rid].Fetched? ==>
      s.readers[rid].saw <= s.landed && forall l :: l in s.readers[rid].saw ==> l.commit < s.readers[rid].since
  }

  lemma StepSawItsPast(env: Env, s: State, step: Step)
    requires GoodCounters(s) && SawItsPast(s)
    ensures SawItsPast(Apply(env, s, step))
  {
    StepIsLater(env, s, step);
    var t := Apply(env, s, step);
    forall rid | rid in t.readers && t.readers[rid].Fetched?
      ensures t.readers[rid].saw <= t.landed && forall l :: l in t.readers[rid].saw ==> l.commit < t.readers[rid].since
    {
      assert step.Prefetch? || (rid in s.readers && t.readers[rid] == s.readers[rid]);
    }
  }

  lemma {:induction false} SawItsPastAlways(env: Env, steps: seq<Step>)
    ensures SawItsPast(Run(env, steps))
  {
    if steps != [] {
      SawItsPastAlways(env, steps[..|steps| - 1]);
      CountersAlways(env, steps[..|steps| - 1]);
      StepSawItsPast(env, Run(env, steps[..|steps| - 1]), steps[|steps| - 1]);
    }
  }
}
