/**
 What a cache must hold so that reading it changes nothing: what a read finds under the versions its
 namespaces have now is what its loader gives. Entries under older versions may hold anything.
 */
module CacheCoherence {
  import opened JsValues
  import opened EntryKeys
  import opened Lists
  import opened VersionStores
  import CacheSteps

  /** The key under which the version store counts a namespace. */
  function VersionKey(prefix: string, ns: string): string {
    prefix + ":v:" + ns
  }

  /** A lookup of `k` is a hit. */
  predicate Hits(k: string, entries: map<string, Value>) {
    k in entries && Present(entries[k])
  }

  /** The key prefix, the reads the service makes and what their loaders give. */
  datatype Setting = Setting(prefix: string, requests: set<Request>, load: Request -> Value) {

    /** The effective version of a namespace. */
    function Version(n: string, counters: Counters): nat {
      Eff(counters, VersionKey(prefix, n))
    }

    /** The versions of all the names of a read. */
    function Current(r: Request, counters: Counters): Versions {
      map n | n in r.Names() :: Version(n, counters)
    }

    /** The one key under which a read is looked up and stored while the counters are what they are. */
    function CurrentKey(r: Request, counters: Counters): string {
      EntryKey(prefix, r, Current(r, counters))
    }

    /** What `r` finds, if anything, is what its loader gives. */
    predicate Right(r: Request, counters: Counters, entries: map<string, Value>) {
      Hits(CurrentKey(r, counters), entries) ==> entries[CurrentKey(r, counters)] == load(r)
    }

    ghost predicate Coherent(counters: Counters, entries: map<string, Value>) {
      forall r {:trigger Right(r, counters, entries)} :: r in requests ==> Right(r, counters, entries)
    }

    /** `k` is not the key of a read under a version that a namespace has yet to reach. */
    ghost predicate NotAhead(k: string, counters: Counters) {
      forall r, vv {:trigger EntryKey(prefix, r, vv)} :: r in requests && k == EntryKey(prefix, r, vv) ==>
        forall n :: n in r.Names() ==> Eff(vv, n) <= Version(n, counters)
    }

    ghost predicate NoneAhead(counters: Counters, entries: map<string, Value>) {
      forall k :: k in entries ==> NotAhead(k, counters)
    }

    /** Nothing was written but answers of reads, each under the current key of its read. */
    ghost predicate WroteAnswers(counters: Counters, before: map<string, Value>, after: map<string, Value>) {
      && before.Keys <= after.Keys
      && forall k :: k in after ==> (k in before && after[k] == before[k]) || IsAnswerAt(k, counters, after[k])
    }

    ghost predicate IsAnswerAt(k: string, counters: Counters, v: Value) {
      exists r :: r in requests && k == CurrentKey(r, counters) && v == load(r)
    }

    /** A read that was right before is right after, and so is the whole cache; no entry gets ahead. */
    ghost predicate Keeps(counters: Counters, before: map<string, Value>, after: map<string, Value>) {
      && (forall r {:trigger Right(r, counters, after)} :: r in requests && Right(r, counters, before) ==>
            Right(r, counters, after))
      && (Coherent(counters, before) ==> Coherent(counters, after))
      && (NoneAhead(counters, before) ==> NoneAhead(counters, after))
    }

    /** The key a step of the interleaved cache looks up is the current one. */
    lemma KeyOfTheSteps(r: Request, values: Counters, counters: Counters)
      requires forall n :: n in r.Names() ==> Eff(counters, n) == Version(n, values)
      ensures EntryKey(prefix, r, CacheSteps.Resolve(counters, r)) == CurrentKey(r, values)
    {
      assert CacheSteps.Resolve(counters, r) == Current(r, values);
    }

    /** Versions of more namespaces than those of the read print the same key. */
    lemma PrintsCurrentKey(r: Request, counters: Counters, vv: Versions)
      requires forall n :: n in r.Names() ==> n in vv && vv[n] == Version(n, counters)
      ensures EntryKey(prefix, r, vv) == CurrentKey(r, counters)
    {
      AgreeingVersionsPrintOneKey(prefix, r, vv, Current(r, counters));
    }

    lemma CurrentIsNotAhead(r: Request, counters: Counters)
      requires Disciplined(requests) && r in requests
      ensures NotAhead(CurrentKey(r, counters), counters)
    {
      forall q, vv | q in requests && CurrentKey(r, counters) == EntryKey(prefix, q, vv)
        ensures forall n :: n in q.Names() ==> Eff(vv, n) <= Version(n, counters)
      {
        KeysNeverCollide(requests, prefix, r, Current(r, counters), q, vv);
      }
    }

    lemma RightStaysRight(q: Request, counters: Counters, before: map<string, Value>, after: map<string, Value>)
      requires Disciplined(requests) && q in requests
      requires Right(q, counters, before) && WroteAnswers(counters, before, after)
      ensures Right(q, counters, after)
    {
      var k := CurrentKey(q, counters);
      if k in after && !(k in before && after[k] == before[k]) {
        var r :| r in requests && k == CurrentKey(r, counters) && after[k] == load(r);
        KeysNeverCollide(requests, prefix, q, Current(q, counters), r, Current(r, counters));
      }
    }

    /** Storing answers under the current keys leaves every read as right as it was. */
    lemma AnswersKeep(counters: Counters, before: map<string, Value>, after: map<string, Value>)
      requires Disciplined(requests) && WroteAnswers(counters, before, after)
      ensures Keeps(counters, before, after)
    {
      forall r {:trigger Right(r, counters, after)} | r in requests && Right(r, counters, before)
        ensures Right(r, counters, after)
      {
        RightStaysRight(r, counters, before, after);
      }
      if NoneAhead(counters, before) {
        forall k | k in after ensures NotAhead(k, counters) {
          if !(k in before && after[k] == before[k]) {
            var r :| r in requests && k == CurrentKey(r, counters) && after[k] == load(r);
            CurrentIsNotAhead(r, counters);
          }
        }
      }
    }

    /** Some name of the read has a higher version than before. */
    ghost predicate Rose(r: Request, before: Counters, after: Counters) {
      exists n :: n in r.Names() && Version(n, before) < Version(n, after)
    }

    ghost predicate Grew(before: Counters, after: Counters) {
      forall n :: Version(n, before) <= Version(n, after)
    }

    /** Under a version that has just been reached nothing is stored yet. */
    lemma NothingUnderNewVersions(r: Request, before: Counters, after: Counters, entries: map<string, Value>)
      requires NoneAhead(before, entries) && r in requests && Rose(r, before, after)
      ensures CurrentKey(r, after) !in entries
    {
      var n :| n in r.Names() && Version(n, before) < Version(n, after);
      assert Eff(Current(r, after), n) == Version(n, after);
      assert !NotAhead(CurrentKey(r, after), before);
    }

    /**
     A commit turns the loaders into those of `new`, and then counters rise. A read that was right is right
     again if and only if its answer did not change, or one of its names rose, or nothing was stored for it.
     */
    lemma RightAfterCommitIff(now: Setting, r: Request, before: Counters, after: Counters, entries: map<string, Value>)
      requires now.prefix == prefix && r in requests && Grew(before, after)
      requires Right(r, before, entries) && NoneAhead(before, entries)
      ensures now.Right(r, after, entries) <==>
        now.load(r) == load(r) || Rose(r, before, after) || !Hits(CurrentKey(r, before), entries)
    {
      assert now.Current(r, after) == Current(r, after);
      if Rose(r, before, after) {
        NothingUnderNewVersions(r, before, after, entries);
      } else {
        forall n | n in r.Names() ensures Version(n, before) == Version(n, after) {
        }
        assert Current(r, before) == Current(r, after);
      }
    }

    /** What the callers owe: for each read whose answer the commit changed, one of its names is bumped. */
    ghost predicate Announced(now: Setting, bumped: seq<string>) {
      forall r :: r in requests && now.load(r) != load(r) ==> exists n :: n in bumped && n in r.Names()
    }

    /** After the commit and the bumps it owes, every read is right again. */
    lemma CoherentAfterCommit(now: Setting, bumped: seq<string>, before: Counters, after: Counters,
                              entries: map<string, Value>)
      requires now.prefix == prefix && now.requests == requests
      requires Grew(before, after) && forall n :: n in bumped ==> Version(n, before) < Version(n, after)
      requires Coherent(before, entries) && NoneAhead(before, entries) && Announced(now, bumped)
      ensures now.Coherent(after, entries) && now.NoneAhead(after, entries)
    {
      forall r | r in requests ensures now.Right(r, after, entries) {
        assert Right(r, before, entries);
        RightAfterCommitIff(now, r, before, after, entries);
      }
      forall k | k in entries ensures now.NotAhead(k, after) {
        assert NotAhead(k, before);
        AheadOfLess(now, k, before, after);
      }
    }

    lemma AheadOfLess(now: Setting, k: string, before: Counters, after: Counters)
      requires now.prefix == prefix && now.requests == requests && Grew(before, after) && NotAhead(k, before)
      ensures now.NotAhead(k, after)
    {
      forall r, vv {:trigger EntryKey(prefix, r, vv)} | r in requests && k == EntryKey(prefix, r, vv)
        ensures forall n :: n in r.Names() ==> Eff(vv, n) <= now.Version(n, after)
      {
        forall n | n in r.Names() ensures Eff(vv, n) <= now.Version(n, after) {
          assert Eff(vv, n) <= Version(n, before) <= Version(n, after) == now.Version(n, after);
        }
      }
    }
  }

  function Filter(ids: seq<string>, keep: string -> bool): seq<string> {
    if ids == [] then []
    else Filter(ids[..|ids| - 1], keep) + if keep(ids[|ids| - 1]) then [ids[|ids| - 1]] else []
  }

  lemma {:induction false} FilterSplits(ids: seq<string>, keep: string -> bool, drop: string -> bool)
    requires forall id :: drop(id) <==> !keep(id)
    ensures multiset(Filter(ids, keep)) + multiset(Filter(ids, drop)) == multiset(ids)
    ensures forall id :: id in Filter(ids, keep) <==> id in ids && keep(id)
  {
    if ids != [] {
      var rest, id := ids[..|ids| - 1], ids[|ids| - 1];
      FilterSplits(rest, keep, drop);
      MultisetSnoc(Filter(rest, keep), Filter(rest, drop), rest, id);
      assert ids == rest + [id];
      if keep(id) {
        assert Filter(ids, keep) == Filter(rest, keep) + [id] && Filter(ids, drop) == Filter(rest, drop) + [];
      } else {
        assert Filter(ids, drop) == Filter(rest, drop) + [id] && Filter(ids, keep) == Filter(rest, keep) + [];
      }
    }
  }

  lemma MultisetSnoc(a: seq<string>, b: seq<string>, c: seq<string>, x: string)
    requires multiset(a) + multiset(b) == multiset(c)
    ensures multiset(a + [x]) + multiset(b + []) == multiset(c + [x])
    ensures multiset(a + []) + multiset(b + [x]) == multiset(c + [x])
  {
  }

  lemma PartsOf(ids: seq<string>, missing: seq<string>, hits: seq<string>)
    requires multiset(missing) + multiset(hits) == multiset(ids)
    ensures Elements(ids) == Elements(missing) + Elements(hits)
  {
    forall id ensures id in ids <==> id in missing || id in hits {
      assert id in multiset(ids) <==> id in multiset(missing) || id in multiset(hits);
    }
  }

  lemma Recombine(ids: seq<string>, cacheable: seq<string>, uncacheable: seq<string>, missed: seq<string>,
                  hits: seq<string>)
    requires multiset(cacheable) + multiset(uncacheable) == multiset(ids)
    requires multiset(missed) + multiset(hits) == multiset(cacheable)
    ensures multiset(uncacheable + missed) + multiset(hits) == multiset(ids)
    ensures Elements(cacheable) == Elements(missed) + Elements(hits)
    ensures forall id :: id in uncacheable + missed ==> id in ids
  {
    PartsOf(ids, uncacheable + missed, hits);
    PartsOf(cacheable, missed, hits);
    forall id | id in uncacheable + missed ensures id in ids {
      assert id in Elements(uncacheable + missed) && id in Elements(ids);
    }
  }

  /** What the ids of a bulk read stand for. */
  datatype BulkOptions = BulkOptions(namespaceFor: string -> string, keyFor: string -> string, dependsOn: seq<string>) {
    function Req(id: string): Request {
      Request(namespaceFor(id), keyFor(id), dependsOn)
    }
  }

  /** The ids the loader would answer for, each with its answer. */
  function Answers(ids: set<string>, opt: BulkOptions, load: Request -> Value): map<string, Value> {
    map id | id in ids && load(opt.Req(id)) != Undefined :: load(opt.Req(id))
  }

  /** A bulk read in its setting, with the counters that its keys are printed from. */
  datatype Bulk = Bulk(setting: Setting, opt: BulkOptions, counters: Counters) {

    function Answer(id: string): Value {
      setting.load(opt.Req(id))
    }

    /** The current key of an id. */
    function Key(id: string): string {
      setting.CurrentKey(opt.Req(id), counters)
    }

    /** All the ids stand for reads of the service. */
    ghost predicate Known(ids: seq<string>) {
      forall id :: id in ids ==> opt.Req(id) in setting.requests
    }

    ghost predicate AreKeys(keyById: map<string, string>) {
      forall id :: id in keyById ==> keyById[id] == Key(id)
    }

    /** `vv` has the versions of all the names of the ids. */
    ghost predicate Versioned(ids: seq<string>, vv: Versions) {
      forall id, n :: id in ids && n in opt.Req(id).Names() ==> n in vv && vv[n] == setting.Version(n, counters)
    }

    lemma PrintsKey(ids: seq<string>, id: string, vv: Versions)
      requires Versioned(ids, vv) && id in ids
      ensures EntryKey(setting.prefix, opt.Req(id), vv) == Key(id)
    {
      setting.PrintsCurrentKey(opt.Req(id), counters, vv);
    }

    /** What a lookup of an id finds. */
    function Look(entries: map<string, Value>): string -> Value {
      id => if Key(id) in entries then entries[Key(id)] else Undefined
    }

    /** `found` are the ids that hit, each with what is stored under its key. */
    ghost predicate Found(found: map<string, Value>, hits: seq<string>, entries: map<string, Value>) {
      && found.Keys == Elements(hits)
      && forall id :: id in found ==> Hits(Key(id), entries) && found[id] == entries[Key(id)]
    }

    /** `v` is a cacheable answer of one of the ids and `k` its key. */
    ghost predicate Fits(ids: seq<string>, k: string, v: Value) {
      exists id :: id in ids && k == Key(id) && v == Answer(id) && IsCacheable(v)
    }

    /** Nothing was written but cacheable answers of the ids, under their keys. */
    ghost predicate WroteBack(ids: seq<string>, before: map<string, Value>, after: map<string, Value>) {
      && before.Keys <= after.Keys
      && forall k :: k in after ==> (k in before && after[k] == before[k]) || Fits(ids, k, after[k])
    }

    lemma WroteBackMore(ids: seq<string>, more: seq<string>, before: map<string, Value>, after: map<string, Value>)
      requires WroteBack(ids, before, after) && forall id :: id in ids ==> id in more
      ensures WroteBack(more, before, after)
    {
    }

    /** Every id with a cacheable answer hits now. */
    ghost predicate AllStored(ids: seq<string>, entries: map<string, Value>) {
      forall id :: id in ids && IsCacheable(Answer(id)) ==> Hits(Key(id), entries)
    }

    lemma WrittenBackKeeps(ids: seq<string>, before: map<string, Value>, after: map<string, Value>)
      requires Disciplined(setting.requests) && Known(ids) && WroteBack(ids, before, after)
      ensures setting.Keeps(counters, before, after)
    {
      forall k | k in after && !(k in before && after[k] == before[k])
        ensures setting.IsAnswerAt(k, counters, after[k])
      {
        var id :| id in ids && k == Key(id) && after[k] == Answer(id) && IsCacheable(after[k]);
        assert opt.Req(id) in setting.requests;
      }
      setting.AnswersKeep(counters, before, after);
    }

    /** Whatever the ids find is right. */
    ghost predicate AllRight(ids: seq<string>, entries: map<string, Value>) {
      forall id :: id in ids ==> setting.Right(opt.Req(id), counters, entries)
    }

    /** Hits and loaded answers together are the answers for all the ids, when the hits are right. */
    lemma AnswersAddUp(ids: seq<string>, missing: seq<string>, hits: seq<string>, found: map<string, Value>,
                       entries: map<string, Value>)
      requires multiset(missing) + multiset(hits) == multiset(ids) && Found(found, hits, entries)
      requires AllRight(ids, entries)
      ensures found + Answers(Elements(missing), opt, setting.load) == Answers(Elements(ids), opt, setting.load)
    {
      PartsOf(ids, missing, hits);
      forall id | id in found ensures id in ids && Present(found[id]) && found[id] == Answer(id) {
        assert id in Elements(ids) && setting.Right(opt.Req(id), counters, entries);
      }
      JoinAnswers(ids, missing, hits, found);
    }

    lemma JoinAnswers(ids: seq<string>, missing: seq<string>, hits: seq<string>, found: map<string, Value>)
      requires Elements(ids) == Elements(missing) + Elements(hits) && found.Keys == Elements(hits)
      requires forall id :: id in found ==> Present(found[id]) && found[id] == Answer(id)
      ensures found + Answers(Elements(missing), opt, setting.load) == Answers(Elements(ids), opt, setting.load)
    {
    }

    /** Once the missed ids are stored all are: the others were there to be found. */
    lemma HitsAreStored(ids: seq<string>, missed: seq<string>, hits: seq<string>, found: map<string, Value>,
                        before: map<string, Value>, after: map<string, Value>)
      requires multiset(missed) + multiset(hits) == multiset(ids) && Found(found, hits, before)
      requires WroteBack(missed, before, after) && AllStored(missed, after)
      ensures AllStored(ids, after)
    {
      PartsOf(ids, missed, hits);
      forall id | id in ids && IsCacheable(Answer(id)) ensures Hits(Key(id), after) {
        assert id in Elements(ids);
        if id !in missed {
          assert id in found;
        }
      }
    }
  }
}
