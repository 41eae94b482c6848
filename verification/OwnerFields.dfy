/** The custom fields of many owners at once: a client of the bulk read. */
module OwnerFields {
  import opened JsValues
  import opened EntryKeys
  import opened CacheCoherence
  import opened Lists
  import opened CacheServiceModel
  import opened CacheCallers
  import opened VersionStores

  datatype Table = Users | Cohort | Uncached

  /** The read for one owner, for the two tables that are cached. */
  function OwnerRead(table: Table, id: string): Read
    requires table != Uncached
  {
    if table == Users then UserFields(id) else CohortFields(id)
  }

  function OrEmpty(v: Value): Value {
    if Present(v) then v else Arr([])
  }

  function Options(table: Table): BulkOptions {
    var family := if table == Users then "ufields" else "cfields";
    BulkOptions(id => family + ":" + id, (id: string) => "data", ["fieldsdef"])
  }

  /** The setting is that of the service's reads, and its loader gives what the database has for each owner. */
  ghost predicate Fits(c: Setting, all: set<Read>, table: Table, itemIds: seq<string>,
                       fetch: (Table, string) -> Value) {
    && (forall r :: r in all ==> Sound(r))
    && c.requests == (set r | r in all :: Req(r))
    && (table != Uncached ==> forall id :: id in itemIds ==>
          OwnerRead(table, id) in all && c.load(Req(OwnerRead(table, id))) == fetch(table, id))
  }

  lemma OwnersAreKnown(c: Setting, all: set<Read>, table: Table, itemIds: seq<string>, fetch: (Table, string) -> Value)
    requires Fits(c, all, table, itemIds, fetch) && table != Uncached
    ensures Disciplined(c.requests)
    ensures forall id :: id in itemIds ==>
      Options(table).Req(id) in c.requests && c.load(Options(table).Req(id)) == fetch(table, id)
  {
    CallersAreDisciplined(all);
    forall id | id in itemIds
      ensures Options(table).Req(id) in c.requests && c.load(Options(table).Req(id)) == fetch(table, id)
    {
      assert OwnerRead(table, id) in all;
    }
  }

  lemma OwnersAreServed(c: Setting, all: set<Read>, table: Table, itemIds: seq<string>,
                        fetch: (Table, string) -> Value, counters: Counters, entries: map<string, Value>)
    requires Fits(c, all, table, itemIds, fetch) && table != Uncached && c.Coherent(counters, entries)
    ensures Disciplined(c.requests)
    ensures Bulk(c, Options(table), counters).Known(itemIds)
    ensures Bulk(c, Options(table), counters).AllRight(itemIds, entries)
  {
    OwnersAreKnown(c, all, table, itemIds, fetch);
  }

  function Hydrate(itemIds: seq<string>, hydrated: map<string, Value>): map<string, Value> {
    map id | id in itemIds :: if id in hydrated then OrEmpty(hydrated[id]) else Arr([])
  }

  lemma HydratedIsFetched(c: Setting, all: set<Read>, table: Table, itemIds: seq<string>,
                          fetch: (Table, string) -> Value)
    requires Fits(c, all, table, itemIds, fetch) && table != Uncached
    ensures Hydrate(itemIds, Answers(Elements(itemIds), Options(table), c.load))
         == map id | id in itemIds :: OrEmpty(fetch(table, id))
  {
    OwnersAreKnown(c, all, table, itemIds, fetch);
    assert forall id :: id in itemIds <==> id in Elements(itemIds);
  }

  /** The bulk read as a caller with a right cache has it. */
  method BulkRead(service: CacheService, ids: seq<string>, opt: BulkOptions, c: Setting)
    returns (result: map<string, Value>)
    requires c.prefix == service.config.keyPrefix && Disciplined(c.requests)
    requires Bulk(c, opt, service.versionStore.client.values).Known(ids)
    requires Bulk(c, opt, service.versionStore.client.values).AllRight(ids, service.cache.entries)
    requires c.Coherent(service.versionStore.client.values, service.cache.entries)
    modifies service`consecutiveFailures, service`circuitOpenUntil, service`now, service.cache, service.metrics
    ensures result == Answers(Elements(ids), opt, c.load)
    ensures c.Coherent(service.versionStore.client.values, service.cache.entries)
  {
    ghost var outcomes, calls;
    var missing;
    result, missing, outcomes, calls := service.BulkGetOrLoad(ids, opt, c);
  }

  method CachedFields(
      service: CacheService, itemIds: seq<string>, table: Table, ghost fetch: (Table, string) -> Value,
      c: Setting, ghost all: set<Read>)
    returns (hydrated: map<string, Value>)
    requires c.prefix == service.config.keyPrefix && Fits(c, all, table, itemIds, fetch) && table != Uncached
    requires c.Coherent(service.versionStore.client.values, service.cache.entries)
    modifies service`consecutiveFailures, service`circuitOpenUntil, service`now, service.cache, service.metrics
    ensures hydrated == Answers(Elements(itemIds), Options(table), c.load)
    ensures c.Coherent(service.versionStore.client.values, service.cache.entries)
  {
    OwnersAreServed(c, all, table, itemIds, fetch, service.versionStore.client.values, service.cache.entries);
    hydrated := BulkRead(service, itemIds, Options(table), c);
  }

  /**
   Whichever cache calls fail and whatever the breaker is at, the answer holds for every id exactly what
   the database has for it, or an empty list, when what the reads find under the current versions is right.
   `all` are the reads of the service; their names keep its keys apart, so that it stays right.
   */
  method GetBulkCustomFieldDetails(
      service: CacheService, itemIds: seq<string>, table: Table, fetch: (Table, string) -> Value,
      c: Setting, ghost all: set<Read>)
    returns (result: map<string, Value>)
    requires c.prefix == service.config.keyPrefix && Fits(c, all, table, itemIds, fetch)
    requires c.Coherent(service.versionStore.client.values, service.cache.entries)
    modifies service`consecutiveFailures, service`circuitOpenUntil, service`now, service.cache, service.metrics
    ensures table != Uncached ==> result == map id | id in itemIds :: OrEmpty(fetch(table, id))
    ensures table == Uncached ==> result == map id | id in itemIds && fetch(table, id) != Undefined :: fetch(table, id)
    ensures c.Coherent(service.versionStore.client.values, service.cache.entries)
  {
    if table == Uncached {
      return map id | id in itemIds && fetch(table, id) != Undefined :: fetch(table, id);
    }
    var hydrated := CachedFields(service, itemIds, table, fetch, c, all);
    HydratedIsFetched(c, all, table, itemIds, fetch);
    result := Hydrate(itemIds, hydrated);
  }
}
