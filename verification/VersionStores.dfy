/** The two stores of namespace counters: a map in memory, and Redis with its atomic INCR. */
module VersionStores {
  import opened JsValues
  import opened EntryKeys

  type Counters = map<string, nat>

  function Lookup(counters: Counters, key: string): Option<nat> {
    if key in counters then Some(counters[key]) else None
  }

  /** What a raw INCR leaves behind: a missing key counts as 0. */
  function RawIncr(counters: Counters, key: string): nat {
    (if key in counters then counters[key] else 0) + 1
  }

  class MemoryCacheVersionStore {
    var counters: Counters

    constructor ()
      ensures counters == map[]
    {
      counters := map[];
    }

    method Mget(keys: seq<string>) returns (values: seq<Option<nat>>)
      ensures |values| == |keys|
      ensures forall i :: 0 <= i < |keys| ==> values[i] == Lookup(counters, keys[i])
    {
      values := seq(|keys|, i requires 0 <= i < |keys| reads this => Lookup(counters, keys[i]));
    }

    method Incr(key: string) returns (next: nat)
      modifies this
      ensures next == Eff(old(counters), key) + 1
      ensures counters == old(counters)[key := next]
    {
      next := Eff(counters, key) + 1;
      counters := counters[key := next];
    }
  }

  /** The raw client: every method is one atomic command. */
  class RedisClient {
    var values: Counters

    constructor ()
      ensures values == map[]
    {
      values := map[];
    }

    method MGet(keys: seq<string>) returns (answers: seq<Option<nat>>)
      ensures |answers| == |keys|
      ensures forall i :: 0 <= i < |keys| ==> answers[i] == Lookup(values, keys[i])
    {
      answers := seq(|keys|, i requires 0 <= i < |keys| reads this => Lookup(values, keys[i]));
    }

    method Incr(key: string) returns (next: nat)
      modifies this
      ensures next == RawIncr(old(values), key)
      ensures values == old(values)[key := next]
    {
      next := RawIncr(values, key);
      values := values[key := next];
    }
  }

  class RedisCacheVersionStore {
    const client: RedisClient

    constructor (client: RedisClient)
      ensures this.client == client
    {
      this.client := client;
    }

    method Mget(keys: seq<string>) returns (values: seq<Option<nat>>)
      ensures |values| == |keys|
      ensures forall i :: 0 <= i < |keys| ==> values[i] == Lookup(client.values, keys[i])
    {
      if |keys| == 0 { return []; }
      values := client.MGet(keys);
    }

    method Incr(key: string) returns (next: nat)
      modifies client
      ensures client.values == RedisIncr(old(client.values), key)
      ensures next == client.values[key]
    {
      next := client.Incr(key);
      if next > 1 { return; }
      next := client.Incr(key);
    }
  }

  // ---------------------------------------------------------------- Redis against memory

  function MemoryIncr(counters: Counters, key: string): Counters {
    counters[key := Eff(counters, key) + 1]
  }

  function RedisIncr(values: Counters, key: string): (after: Counters)
    ensures key in after
  {
    var once := values[key := RawIncr(values, key)];
    if once[key] > 1 then once else once[key := RawIncr(once, key)]
  }

  function MemoryRun(keys: seq<string>): Counters {
    if keys == [] then map[] else MemoryIncr(MemoryRun(keys[..|keys| - 1]), keys[|keys| - 1])
  }

  function RedisRun(keys: seq<string>): Counters {
    if keys == [] then map[] else RedisIncr(RedisRun(keys[..|keys| - 1]), keys[|keys| - 1])
  }

  predicate AllPositive(counters: Counters) {
    forall k :: k in counters ==> counters[k] >= 1
  }

  lemma {:induction false} MemoryRunPositive(keys: seq<string>)
    ensures AllPositive(MemoryRun(keys))
  {
    if keys != [] {
      MemoryRunPositive(keys[..|keys| - 1]);
    }
  }

  /** One caller at a time cannot tell the stores apart: the same INCRs leave the same counters, bit for bit. */
  lemma {:induction false} SequentialStoresAgree(keys: seq<string>)
    ensures RedisRun(keys) == MemoryRun(keys)
  {
    if keys != [] {
      SequentialStoresAgree(keys[..|keys| - 1]);
      MemoryRunPositive(keys[..|keys| - 1]);
    }
  }

  /** Why the second INCR: a single one is visible to readers exactly when the counter was there. */
  lemma SingleIncrVisible(values: Counters, key: string)
    requires AllPositive(values)
    ensures Eff(values[key := RawIncr(values, key)], key) != Eff(values, key) <==> key in values
    ensures Eff(RedisIncr(values, key), key) == Eff(values, key) + 1
  {
  }
}
