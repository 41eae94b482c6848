/**
 Redis INCRs under interleaving. An INCR of the Redis store is one or two raw commands with
 anything in between, yet the counters readers see are those of the in-memory store on the
 same INCRs, in the order in which they finish: the second command makes up exactly for the
 first one that went unseen.
 */
module StoreRefinement {
  import opened EntryKeys
  import opened VersionStores
  import opened CacheProtocol
  import opened CacheSteps

  /** Step `step` finishes an INCR of the namespace returned. */
  ghost function Finishes(env: Env, s: State, step: Step): seq<string> {
    if step.IncrLands? && Enabled(env, s, step) && AfterIncr(s, step.id).incrs[step.id].Finished?
    then [s.incrs[step.id].ns] else []
  }

  /** The namespaces of the INCRs of a run in the order in which they finish. */
  ghost function FinishOrder(env: Env, steps: seq<Step>): seq<string> {
    if steps == [] then []
    else
      var before := steps[..|steps| - 1];
      FinishOrder(env, before) + Finishes(env, Run(env, before), steps[|steps| - 1])
  }

  /** A step either leaves every effective version alone or finishes an INCR and adds one to its own. */
  lemma StepIsMemoryIncr(env: Env, s: State, step: Step, n: string)
    requires GoodCounters(s)
    ensures Eff(Apply(env, s, step).counters, n)
         == Eff(s.counters, n) + (if n in Finishes(env, s, step) then 1 else 0)
  {
    if step.IncrLands? && Enabled(env, s, step) {
      var op := s.incrs[step.id];
      assert op.ns in s.counters ==> s.counters[op.ns] >= 1;
    }
  }

  lemma {:induction false} InterleavedRedisIsMemory(env: Env, steps: seq<Step>, n: string)
    ensures Eff(Run(env, steps).counters, n) == Eff(MemoryRun(FinishOrder(env, steps)), n)
  {
    if steps != [] {
      var before, step := steps[..|steps| - 1], steps[|steps| - 1];
      InterleavedRedisIsMemory(env, before, n);
      CountersAlways(env, before);
      StepIsMemoryIncr(env, Run(env, before), step, n);
      var order, fin := FinishOrder(env, before), Finishes(env, Run(env, before), step);
      if fin == [] {
        assert order + fin == order;
      } else {
        assert (order + fin)[..|order|] == order;
      }
    }
  }
}
