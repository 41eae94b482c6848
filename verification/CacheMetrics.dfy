/** Hit, miss, error and bypass counters, one set per namespace family. */
module CacheMetricsModel {

  datatype CacheOutcome = Hit | Miss | Error | Bypass

  datatype NamespaceCounters = NamespaceCounters(hit: nat, miss: nat, error: nat, bypass: nat)

  const Zero := NamespaceCounters(0, 0, 0, 0)

  /** The part of a namespace before its first colon. */
  function Family(ns: string): string {
    if ns == [] || ns[0] == ':' then [] else [ns[0]] + Family(ns[1..])
  }

  lemma {:induction false} FamilyOf(family: string, rest: string)
    requires ':' !in family
    ensures Family(family + ":" + rest) == family && Family(family) == family
  {
    if family == [] {
      assert (family + ":" + rest)[0] == ':';
    } else {
      assert (family + ":" + rest)[1..] == family[1..] + ":" + rest;
      assert forall i :: 0 <= i < |family[1..]| ==> family[1..][i] == family[i + 1];
      FamilyOf(family[1..], rest);
    }
  }

  function Add(c: NamespaceCounters, outcome: CacheOutcome): NamespaceCounters {
    match outcome
    case Hit => c.(hit := c.hit + 1)
    case Miss => c.(miss := c.miss + 1)
    case Error => c.(error := c.error + 1)
    case Bypass => c.(bypass := c.bypass + 1)
  }

  type Counts = map<string, NamespaceCounters>

  function At(counts: Counts, family: string): NamespaceCounters {
    if family in counts then counts[family] else Zero
  }

  /** The counters after one more lookup of a family. */
  function Counted(counts: Counts, family: string, outcome: CacheOutcome): Counts {
    counts[family := Add(At(counts, family), outcome)]
  }

  function Of(c: NamespaceCounters, outcome: CacheOutcome): nat {
    match outcome
    case Hit => c.hit
    case Miss => c.miss
    case Error => c.error
    case Bypass => c.bypass
  }

  /** One counter of the family goes up by one, and no other anywhere. */
  lemma CountedAt(counts: Counts, family: string, outcome: CacheOutcome, f: string, o: CacheOutcome)
    ensures Of(At(Counted(counts, family, outcome), f), o)
         == Of(At(counts, f), o) + if f == family && o == outcome then 1 else 0
  {
    AddsOne(At(counts, family), outcome, o);
    assert At(Counted(counts, family, outcome), f)
        == if f == family then Add(At(counts, family), outcome) else At(counts, f);
  }

  lemma AddsOne(c: NamespaceCounters, outcome: CacheOutcome, o: CacheOutcome)
    ensures Of(Add(c, outcome), o) == Of(c, o) + if o == outcome then 1 else 0
  {
  }

  class CacheMetrics {
    var counters: Counts

    constructor ()
      ensures counters == map[]
    {
      counters := map[];
    }

    method Record(ns: string, outcome: CacheOutcome)
      modifies this
      ensures counters == Counted(old(counters), Family(ns), outcome)
    {
      var key := Family(ns);
      if key !in counters {
        counters := counters[key := Zero];
      }
      counters := counters[key := Add(counters[key], outcome)];
    }
  }
}
