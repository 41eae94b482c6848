/**
 What a read through the cache service gives and leaves behind, single or in bulk: what it found, what
 it stored, what is counted for it, and how many operations it took. All of it is about values; the
 service itself is in CacheServiceModel.
 */
module CacheReads {
  import opened JsValues
  import opened EntryKeys
  import opened CacheMetricsModel
  import opened CacheCoherence
  import opened VersionStores
  import opened Lists
  import CB = CircuitBreaker

  /** The counters after one outcome for each of the ids. */
  function Recorded(counts: Counts, namespaceFor: string -> string, ids: seq<string>,
                    outcomes: seq<CacheOutcome>): Counts
    requires |ids| == |outcomes|
  {
    if ids == [] then counts
    else
      var n := |ids| - 1;
      Counted(Recorded(counts, namespaceFor, ids[..n], outcomes[..n]), Family(namespaceFor(ids[n])), outcomes[n])
  }

  /** The ids whose outcome is a hit. */
  function HitIds(ids: seq<string>, outcomes: seq<CacheOutcome>): seq<string>
    requires |ids| == |outcomes|
  {
    if ids == [] then []
    else
      var n := |ids| - 1;
      HitIds(ids[..n], outcomes[..n]) + if outcomes[n] == Hit then [ids[n]] else []
  }

  lemma RecordedAppend(counts: Counts, namespaceFor: string -> string, ids: seq<string>, outcomes: seq<CacheOutcome>,
                       id: string, o: CacheOutcome)
    requires |ids| == |outcomes|
    ensures Recorded(counts, namespaceFor, ids + [id], outcomes + [o])
         == Counted(Recorded(counts, namespaceFor, ids, outcomes), Family(namespaceFor(id)), o)
    ensures HitIds(ids + [id], outcomes + [o]) == HitIds(ids, outcomes) + if o == Hit then [id] else []
  {
  }

  /** The lookups of a bulk read, each with its family. */
  function Lookups(namespaceFor: string -> string, ids: seq<string>,
                   outcomes: seq<CacheOutcome>): seq<(string, CacheOutcome)>
    requires |ids| == |outcomes|
  {
    seq(|ids|, i requires 0 <= i < |ids| => (Family(namespaceFor(ids[i])), outcomes[i]))
  }

  /** What the snapshot shows: each counter of a family grows by the number of its lookups with that outcome. */
  lemma {:induction false} RecordedTotals(counts: Counts, namespaceFor: string -> string, ids: seq<string>,
                                          outcomes: seq<CacheOutcome>, f: string, o: CacheOutcome)
    requires |ids| == |outcomes|
    ensures Of(At(Recorded(counts, namespaceFor, ids, outcomes), f), o)
         == Of(At(counts, f), o) + Count(Lookups(namespaceFor, ids, outcomes), (f, o))
  {
    if ids != [] {
      var n := |ids| - 1;
      RecordedTotals(counts, namespaceFor, ids[..n], outcomes[..n], f, o);
      var earlier := Recorded(counts, namespaceFor, ids[..n], outcomes[..n]);
      CountedAt(earlier, Family(namespaceFor(ids[n])), outcomes[n], f, o);
      var last := [(Family(namespaceFor(ids[n])), outcomes[n])];
      assert Lookups(namespaceFor, ids, outcomes) == Lookups(namespaceFor, ids[..n], outcomes[..n]) + last;
      CountJoin(Lookups(namespaceFor, ids[..n], outcomes[..n]), last, (f, o));
    }
  }

  /** The ids are split, with multiplicity, into those that were found and those that were not. */
  ghost predicate Sifted(ids: seq<string>, look: string -> Value, result: map<string, Value>, missed: seq<string>,
                         hits: seq<string>) {
    && multiset(missed) + multiset(hits) == multiset(ids)
    && result.Keys == Elements(hits)
    && (forall id :: id in result ==> result[id] == look(id) && Present(look(id)))
    && (forall id :: id in missed ==> !Present(look(id)))
  }

  lemma SiftOne(ids: seq<string>, id: string, look: string -> Value, result: map<string, Value>, missed: seq<string>,
                hits: seq<string>)
    requires Sifted(ids, look, result, missed, hits)
    ensures Present(look(id)) ==> Sifted(ids + [id], look, result[id := look(id)], missed, hits + [id])
    ensures !Present(look(id)) ==> Sifted(ids + [id], look, result, missed + [id], hits)
  {
  }

  /** How far a pass over the ids has come: what it found, and one outcome recorded for each id. */
  ghost predicate SiftedSoFar(ids: seq<string>, look: string -> Value, result: map<string, Value>, missed: seq<string>,
                              outcomes: seq<CacheOutcome>, namespaceFor: string -> string,
                              before: Counts, now: Counts) {
    && |outcomes| == |ids|
    && (forall i :: 0 <= i < |ids| ==> outcomes[i] == if Present(look(ids[i])) then Hit else Miss)
    && Sifted(ids, look, result, missed, HitIds(ids, outcomes))
    && now == Recorded(before, namespaceFor, ids, outcomes)
  }

  lemma SiftStep(ids: seq<string>, id: string, look: string -> Value, result: map<string, Value>, missed: seq<string>,
                 outcomes: seq<CacheOutcome>, namespaceFor: string -> string, before: Counts, now: Counts)
    requires SiftedSoFar(ids, look, result, missed, outcomes, namespaceFor, before, now)
    ensures Present(look(id)) ==>
      SiftedSoFar(ids + [id], look, result[id := look(id)], missed, outcomes + [Hit],
                  namespaceFor, before, Counted(now, Family(namespaceFor(id)), Hit))
    ensures !Present(look(id)) ==>
      SiftedSoFar(ids + [id], look, result, missed + [id], outcomes + [Miss],
                  namespaceFor, before, Counted(now, Family(namespaceFor(id)), Miss))
  {
    var o := if Present(look(id)) then Hit else Miss;
    RecordedAppend(before, namespaceFor, ids, outcomes, id, o);
    SiftOne(ids, id, look, result, missed, HitIds(ids, outcomes));
    assert HitIds(ids, outcomes) + [] == HitIds(ids, outcomes);
  }

  /** Ids recorded one after the other, none of them a hit. */
  ghost predicate FailedSoFar(ids: seq<string>, outcomes: seq<CacheOutcome>, namespaceFor: string -> string,
                              before: Counts, now: Counts) {
    && |outcomes| == |ids| && HitIds(ids, outcomes) == []
    && now == Recorded(before, namespaceFor, ids, outcomes)
  }

  lemma FailedStep(ids: seq<string>, outcomes: seq<CacheOutcome>, namespaceFor: string -> string, before: Counts,
                   now: Counts, id: string, o: CacheOutcome)
    requires FailedSoFar(ids, outcomes, namespaceFor, before, now) && o != Hit
    ensures FailedSoFar(ids + [id], outcomes + [o], namespaceFor, before, Counted(now, Family(namespaceFor(id)), o))
  {
    RecordedAppend(before, namespaceFor, ids, outcomes, id, o);
  }

  /** Errors when the versions were read; without them bypassed while the circuit is open, errors once it is not. */
  ghost predicate Refused(outcomes: seq<CacheOutcome>, resolved: bool, b: CB.Breaker, since: nat, now: nat) {
    && since <= now
    && (forall o :: o in outcomes ==> o == Error || (o == Bypass && !resolved && CB.IsOpen(b, since)))
    && (!resolved && Error in outcomes ==> !CB.IsOpen(b, now))
  }

  /** `p` is the write-back of `id`. */
  predicate IsBackfill(id: string, keyById: map<string, string>, loaded: map<string, Value>, p: (string, Value)) {
    id in keyById && id in loaded && IsCacheable(loaded[id]) && p == (keyById[id], loaded[id])
  }

  /** `after` is `before` with some of the pairs written over it. */
  ghost predicate WroteSome(pairs: seq<(string, Value)>, before: map<string, Value>, after: map<string, Value>) {
    && before.Keys <= after.Keys
    && forall k :: k in after ==> (k in before && after[k] == before[k]) || (k, after[k]) in pairs
  }

  /** Each key of the pairs has its value from one of them. */
  ghost predicate WroteAll(pairs: seq<(string, Value)>, entries: map<string, Value>) {
    forall p :: p in pairs ==> p.0 in entries && (p.0, entries[p.0]) in pairs
  }

  /** Only ids with a key are written back; `keyed` are those among the missing. */
  lemma BackfillFits(bulk: Bulk, missing: seq<string>, keyed: seq<string>, keyById: map<string, string>,
                     loaded: map<string, Value>, pairs: seq<(string, Value)>,
                     before: map<string, Value>, after: map<string, Value>)
    requires bulk.AreKeys(keyById) && loaded == Answers(Elements(missing), bulk.opt, bulk.setting.load)
    requires forall p :: p in pairs ==> exists id :: id in missing && IsBackfill(id, keyById, loaded, p)
    requires forall id :: id in missing && id in keyById ==> id in keyed
    requires WroteSome(pairs, before, after)
    ensures bulk.WroteBack(keyed, before, after)
  {
    forall k | k in after && !(k in before && after[k] == before[k]) ensures bulk.Fits(keyed, k, after[k]) {
      assert (k, after[k]) in pairs;
      var id :| id in missing && IsBackfill(id, keyById, loaded, (k, after[k]));
    }
  }

  lemma BackfillIsNeeded(bulk: Bulk, missing: seq<string>, keyed: seq<string>, keyById: map<string, string>,
                         loaded: map<string, Value>, pairs: seq<(string, Value)>)
    requires loaded == Answers(Elements(missing), bulk.opt, bulk.setting.load)
    requires forall p :: p in pairs ==> exists id :: id in missing && IsBackfill(id, keyById, loaded, p)
    requires forall id :: id in missing && id in keyById && id in loaded && IsCacheable(loaded[id]) ==>
      (keyById[id], loaded[id]) in pairs
    requires forall id :: id in keyed ==> id in missing
    requires forall id :: id in missing && id in keyById ==> id in keyed
    ensures pairs == [] <==> forall id :: id in keyed ==> id !in keyById || !IsCacheable(bulk.Answer(id))
  {
    if pairs != [] {
      assert pairs[0] in pairs;
      var id :| id in missing && IsBackfill(id, keyById, loaded, pairs[0]);
      assert id in keyed && IsCacheable(bulk.Answer(id));
    }
  }

  lemma BackfilledAreStored(bulk: Bulk, missing: seq<string>, keyed: seq<string>, keyById: map<string, string>,
                            loaded: map<string, Value>, pairs: seq<(string, Value)>, entries: map<string, Value>)
    requires bulk.AreKeys(keyById) && loaded == Answers(Elements(missing), bulk.opt, bulk.setting.load)
    requires forall p :: p in pairs ==> exists id :: id in missing && IsBackfill(id, keyById, loaded, p)
    requires forall id :: id in missing && id in keyById && id in loaded && IsCacheable(loaded[id]) ==>
      (keyById[id], loaded[id]) in pairs
    requires forall id :: id in keyed ==> id in missing && id in keyById
    requires WroteAll(pairs, entries)
    ensures bulk.AllStored(keyed, entries)
  {
    forall id | id in keyed && IsCacheable(bulk.Answer(id)) ensures Hits(bulk.Key(id), entries) {
      assert (keyById[id], loaded[id]) in pairs;
      assert (keyById[id], entries[keyById[id]]) in pairs;
    }
  }

  /** Hit or miss by what the key has, when both lookups worked, and else an error. */
  predicate Saw(key: string, entries: map<string, Value>, calls: seq<CB.Call>, outcome: CacheOutcome) {
    outcome == if |calls| >= 2 && calls[0].works && calls[1].works then (if Hits(key, entries) then Hit else Miss)
               else Error
  }

  /**
   What a read gives and leaves behind, `loaded` being its loader's answer: a hit gives the entry and writes
   nothing, anything else gives what was loaded, which is stored under the key if it can be cached.
   */
  ghost predicate Served(key: string, loaded: Value, before: map<string, Value>, after: map<string, Value>,
                         calls: seq<CB.Call>, outcome: CacheOutcome, result: Value) {
    && |calls| <= 3
    && (calls != [] ==> Saw(key, before, calls, outcome))
    && result == (if calls != [] && outcome == Hit then before[key] else loaded)
    && (|calls| == 3 <==> calls != [] && calls[0].works && outcome != Hit && IsCacheable(loaded))
    && (after == before || (|calls| == 3 && after == before[key := loaded]))
    && (|calls| == 3 && calls[2].works ==> after == before[key := loaded])
  }

  /** A read that finds what its loader gives, or nothing, gives what its loader gives and keeps the cache so. */
  lemma ServedIsRight(c: Setting, req: Request, counters: Counters, before: map<string, Value>,
                      after: map<string, Value>, calls: seq<CB.Call>, outcome: CacheOutcome, result: Value)
    requires Served(c.CurrentKey(req, counters), c.load(req), before, after, calls, outcome, result)
    ensures c.Right(req, counters, before) ==> result == c.load(req)
    ensures Disciplined(c.requests) && req in c.requests ==> c.Keeps(counters, before, after)
  {
    if Disciplined(c.requests) && req in c.requests {
      var key := c.CurrentKey(req, counters);
      assert after != before ==> c.IsAnswerAt(key, counters, after[key]);
      c.AnswersKeep(counters, before, after);
    }
  }

  /** A hit found something under the key of its id, a miss did not. */
  ghost predicate Observed(bulk: Bulk, ids: seq<string>, outcomes: seq<CacheOutcome>, entries: map<string, Value>) {
    && |outcomes| == |ids|
    && forall i :: 0 <= i < |ids| ==>
         && (outcomes[i] == Hit ==> Hits(bulk.Key(ids[i]), entries))
         && (outcomes[i] == Miss ==> !Hits(bulk.Key(ids[i]), entries))
  }

  lemma AllNamesRead(ids: seq<string>, names: seq<string>, bulk: Bulk, vv: Versions)
    requires |names| == |ids| && forall i :: 0 <= i < |ids| ==> names[i] == bulk.opt.namespaceFor(ids[i])
    requires vv.Keys == Elements(names + bulk.opt.dependsOn)
    requires forall n :: n in vv ==> vv[n] == bulk.setting.Version(n, bulk.counters)
    ensures bulk.Versioned(ids, vv)
  {
    forall id, n | id in ids && n in bulk.opt.Req(id).Names() ensures n in vv {
      var i :| 0 <= i < |ids| && ids[i] == id;
      assert names[i] in names + bulk.opt.dependsOn;
      assert n in names + bulk.opt.dependsOn;
      assert n in Elements(names + bulk.opt.dependsOn);
    }
  }

  lemma SiftedIsObserved(bulk: Bulk, ids: seq<string>, entries: map<string, Value>, result: map<string, Value>,
                         missed: seq<string>, outcomes: seq<CacheOutcome>, namespaceFor: string -> string,
                         before: Counts, now: Counts)
    requires SiftedSoFar(ids, bulk.Look(entries), result, missed, outcomes, namespaceFor, before, now)
    ensures Observed(bulk, ids, outcomes, entries) && bulk.Found(result, HitIds(ids, outcomes), entries)
  {
    forall id ensures Present(bulk.Look(entries)(id)) <==> Hits(bulk.Key(id), entries) {
    }
  }

  lemma NothingObserved(bulk: Bulk, ids: seq<string>, entries: map<string, Value>, outcomes: seq<CacheOutcome>)
    requires |outcomes| == |ids| && HitIds(ids, outcomes) == []
    requires forall o :: o in outcomes ==> o == Error || o == Bypass
    ensures Observed(bulk, ids, outcomes, entries) && bulk.Found(map[], HitIds(ids, outcomes), entries)
  {
    forall i | 0 <= i < |ids| ensures outcomes[i] == Error || outcomes[i] == Bypass {
      assert outcomes[i] in outcomes;
    }
  }

  lemma ValuesAreLooks(bulk: Bulk, ids: seq<string>, keyById: map<string, string>, entries: map<string, Value>,
                       values: seq<Value>)
    requires keyById.Keys == Elements(ids) && bulk.AreKeys(keyById) && |values| == |ids|
    requires forall i :: 0 <= i < |ids| ==>
      values[i] == if keyById[ids[i]] in entries then entries[keyById[ids[i]]] else Undefined
    ensures forall i :: 0 <= i < |ids| ==> values[i] == bulk.Look(entries)(ids[i])
  {
    forall i | 0 <= i < |ids| ensures values[i] == bulk.Look(entries)(ids[i]) {
      assert ids[i] in keyById && keyById[ids[i]] == bulk.Key(ids[i]);
    }
  }

  /** What a bulk read knows when it calls the loader; `asked` are the ids it looked up, `missed` those that missed. */
  ghost predicate Gathered(bulk: Bulk, ids: seq<string>, asked: seq<string>, result: map<string, Value>,
                           missing: seq<string>, missed: seq<string>, keyById: map<string, string>,
                           outcomes: seq<CacheOutcome>, entries: map<string, Value>) {
    && Observed(bulk, asked, outcomes, entries)
    && multiset(missing) + multiset(HitIds(asked, outcomes)) == multiset(ids)
    && multiset(missed) + multiset(HitIds(asked, outcomes)) == multiset(asked)
    && bulk.Found(result, HitIds(asked, outcomes), entries)
    && bulk.AreKeys(keyById) && keyById.Keys <= Elements(asked)
    && (forall id :: id in missed ==> id in missing && id in asked)
    && (forall id :: id in missing && id in keyById ==> id in missed)
  }

  lemma GatheredAddsUp(bulk: Bulk, ids: seq<string>, asked: seq<string>, uncacheable: seq<string>,
                       result: map<string, Value>, missed: seq<string>, keyById: map<string, string>,
                       outcomes: seq<CacheOutcome>, entries: map<string, Value>)
    requires multiset(asked) + multiset(uncacheable) == multiset(ids)
    requires forall id :: id in asked ==> id !in uncacheable
    requires Observed(bulk, asked, outcomes, entries)
    requires multiset(missed) + multiset(HitIds(asked, outcomes)) == multiset(asked)
    requires bulk.Found(result, HitIds(asked, outcomes), entries)
    requires bulk.AreKeys(keyById) && keyById.Keys <= Elements(asked)
    ensures Gathered(bulk, ids, asked, result, uncacheable + missed, missed, keyById, outcomes, entries)
  {
    Recombine(ids, asked, uncacheable, missed, HitIds(asked, outcomes));
    PartsOf(asked, missed, HitIds(asked, outcomes));
    forall id | id in missed ensures id in asked {
      assert id in Elements(asked);
    }
    forall id | id in uncacheable + missed && id in keyById ensures id in missed {
      assert id in Elements(asked);
    }
  }

  /** What is counted for the ids of a bulk read, by how its two lookups went; `b` is the breaker after them. */
  predicate Accounted(outcomes: seq<CacheOutcome>, calls: seq<CB.Call>, b: CB.Breaker, now: nat) {
    if calls == [] then outcomes == []
    else if !calls[0].works then
      && |calls| == 1
      && (forall o :: o in outcomes ==> o == Error || o == Bypass)
      && (Error in outcomes ==> !CB.IsOpen(b, now)) && (Bypass in outcomes ==> CB.IsOpen(b, calls[0].end))
    else
      && |calls| >= 2
      && forall o :: o in outcomes ==> if calls[1].works then o == Hit || o == Miss else o == Error
  }

  /** The write-back of the missing ids that have a key, if there is anything to write. */
  ghost predicate Backfilled(bulk: Bulk, keyed: seq<string>, keyById: map<string, string>, writes: seq<CB.Call>,
                             before: map<string, Value>, after: map<string, Value>) {
    && bulk.WroteBack(keyed, before, after)
    && (writes == [] <==> forall id :: id in keyed ==> id !in keyById || !IsCacheable(bulk.Answer(id)))
    && (Elements(keyed) <= keyById.Keys && (writes == [] || writes[0].works) ==> bulk.AllStored(keyed, after))
  }

  /** What a bulk read gives and leaves behind. */
  ghost predicate BulkServed(bulk: Bulk, ids: seq<string>, asked: seq<string>, missing: seq<string>,
                             outcomes: seq<CacheOutcome>, calls: seq<CB.Call>, before: map<string, Value>,
                             after: map<string, Value>) {
    && |calls| <= 3 && (asked == [] <==> calls == [])
    && Observed(bulk, asked, outcomes, before)
    && multiset(missing) + multiset(HitIds(asked, outcomes)) == multiset(ids)
    && bulk.WroteBack(missing, before, after) && bulk.WroteBack(asked, before, after)
    && (calls != [] && (forall call :: call in calls ==> call.works) ==> bulk.AllStored(asked, after))
  }

  lemma NothingToServe(bulk: Bulk, entries: map<string, Value>)
    ensures BulkServed(bulk, [], [], [], [], [], entries, entries)
    ensures bulk.setting.Keeps(bulk.counters, entries, entries)
  {
  }

  lemma NothingMissed(bulk: Bulk, missed: seq<string>, keyById: map<string, string>, entries: map<string, Value>)
    requires forall id :: id !in missed
    ensures Backfilled(bulk, missed, keyById, [], entries, entries)
  {
  }

  /** The write-back does not change what was counted; it is only made when the versions are known. */
  lemma StillAccounted(bulk: Bulk, keyed: seq<string>, keyById: map<string, string>, before: map<string, Value>,
                       entries: map<string, Value>, outcomes: seq<CacheOutcome>, lookups: seq<CB.Call>,
                       writes: seq<CB.Call>, b: CB.Breaker, now: nat, after: CB.Breaker, later: nat)
    requires Accounted(outcomes, lookups, b, now)
    requires Backfilled(bulk, keyed, keyById, writes, before, entries)
    requires keyById != map[] ==> lookups != [] && lookups[0].works
    requires writes == [] ==> after == b && later == now
    ensures Accounted(outcomes, lookups + writes, after, later)
  {
    if writes == [] {
      assert lookups + writes == lookups;
    }
  }

  lemma BulkIsRight(bulk: Bulk, ids: seq<string>, asked: seq<string>, found: map<string, Value>,
                    missing: seq<string>, missed: seq<string>, keyById: map<string, string>,
                    outcomes: seq<CacheOutcome>, lookups: seq<CB.Call>, writes: seq<CB.Call>,
                    before: map<string, Value>, after: map<string, Value>)
    requires Gathered(bulk, ids, asked, found, missing, missed, keyById, outcomes, before)
    requires |lookups| <= 2 && (asked == [] <==> lookups == []) && |writes| <= 1
    requires lookups != [] && lookups[0].works ==> keyById.Keys == Elements(asked)
    requires Backfilled(bulk, missed, keyById, writes, before, after)
    ensures BulkServed(bulk, ids, asked, missing, outcomes, lookups + writes, before, after)
    ensures bulk.AllRight(ids, before) ==>
      found + Answers(Elements(missing), bulk.opt, bulk.setting.load)
      == Answers(Elements(ids), bulk.opt, bulk.setting.load)
    ensures Disciplined(bulk.setting.requests) && bulk.Known(ids) ==>
      bulk.setting.Keeps(bulk.counters, before, after)
  {
    if bulk.AllRight(ids, before) {
      bulk.AnswersAddUp(ids, missing, HitIds(asked, outcomes), found, before);
    }
    GatheredIsServed(bulk, ids, asked, found, missing, missed, keyById, outcomes, lookups, writes, before, after);
    if Disciplined(bulk.setting.requests) && bulk.Known(ids) {
      PartsOf(ids, missing, HitIds(asked, outcomes));
      forall id | id in missed ensures id in ids {
        assert id in Elements(missing);
        assert id in Elements(ids);
      }
      bulk.WrittenBackKeeps(missed, before, after);
    }
  }

  lemma GatheredIsServed(bulk: Bulk, ids: seq<string>, asked: seq<string>, found: map<string, Value>,
                         missing: seq<string>, missed: seq<string>, keyById: map<string, string>,
                         outcomes: seq<CacheOutcome>, lookups: seq<CB.Call>, writes: seq<CB.Call>,
                         before: map<string, Value>, after: map<string, Value>)
    requires Gathered(bulk, ids, asked, found, missing, missed, keyById, outcomes, before)
    requires |lookups| <= 2 && (asked == [] <==> lookups == []) && |writes| <= 1
    requires lookups != [] && lookups[0].works ==> keyById.Keys == Elements(asked)
    requires Backfilled(bulk, missed, keyById, writes, before, after)
    ensures BulkServed(bulk, ids, asked, missing, outcomes, lookups + writes, before, after)
  {
    bulk.WroteBackMore(missed, missing, before, after);
    bulk.WroteBackMore(missed, asked, before, after);
    assert writes != [] ==> asked != [];
    var calls := lookups + writes;
    if calls != [] && forall call :: call in calls ==> call.works {
      assert lookups[0] in calls && (writes != [] ==> writes[0] in calls);
      assert Elements(missed) <= Elements(asked);
      bulk.HitsAreStored(asked, missed, HitIds(asked, outcomes), found, before, after);
    }
  }
}
