/**
 The places of a user's centers: state, district, block, center, batches. Grouping loses no center,
 doubles none, and puts each where its own data says; the pages of the answer add up to the whole.
 */
module GeoHierarchy {
  import opened CenterPlaces
  import opened JsValues
  import opened Lists

  datatype Kind = BATCH | CENTER | COHORT | OTHER

  /** An active membership that passed the user's filters; `kind` is its type in lower case. */
  datatype Membership = Membership(cohortId: string, name: string, kind: Kind, parentId: Option<string>)

  datatype Batch = Batch(batchId: string, batchName: string)

  /** A center as the database has it, with its custom fields. */
  datatype CenterRow = CenterRow(centerId: string, centerName: string, fields: seq<CustomField>)

  /** A center, its places, and whether it passes the place filters. */
  datatype Center = Center(
    centerId: string, centerName: string, state: Option<string>, district: Option<string>, block: Option<string>,
    stateName: Option<string>, districtName: Option<string>, blockName: Option<string>, included: bool)

  // ---------------------------------------------------------------- step 2: centers and their batches

  /** The center a membership counts for: a batch for its parent, a center for itself. */
  function CenterOf(m: Membership): Option<string> {
    match m.kind
    case BATCH => m.parentId
    case CENTER | COHORT => Some(m.cohortId)
    case OTHER => None
  }

  predicate IsBatchOf(m: Membership, center: string) {
    m.kind == BATCH && m.parentId == Some(center)
  }

  predicate HasBatch(batches: seq<Batch>, id: string) {
    exists i :: 0 <= i < |batches| && batches[i].batchId == id
  }

  predicate Distinct<T(==)>(s: seq<T>) {
    forall i, j :: 0 <= i < j < |s| ==> s[i] != s[j]
  }

  predicate DistinctBatches(batches: seq<Batch>) {
    forall i, j :: 0 <= i < j < |batches| ==> batches[i].batchId != batches[j].batchId
  }

  predicate FromMembership(cohorts: seq<Membership>, center: string, b: Batch) {
    exists m :: m in cohorts && IsBatchOf(m, center) && b == Batch(m.cohortId, m.name)
  }

  /** The distinct batches of the memberships under the center, and no others. */
  predicate BatchesFit(cohorts: seq<Membership>, center: string, batches: seq<Batch>) {
    && DistinctBatches(batches)
    && (forall b :: b in batches ==> FromMembership(cohorts, center, b))
    && (forall m :: m in cohorts && IsBatchOf(m, center) ==> HasBatch(batches, m.cohortId))
  }

  predicate Counts(cohorts: seq<Membership>, center: string) {
    exists m :: m in cohorts && CenterOf(m) == Some(center)
  }

  ghost predicate Collected(cohorts: seq<Membership>, centerIds: seq<string>, batchMap: map<string, seq<Batch>>) {
    && Distinct(centerIds)
    && (forall c :: c in centerIds <==> Counts(cohorts, c))
    && (forall c :: c in centerIds <==> c in batchMap)
    && (forall c :: c in batchMap ==> BatchesFit(cohorts, c, batchMap[c]))
  }

  method CollectCenters(userCohorts: seq<Membership>)
    returns (centerIds: seq<string>, batchMap: map<string, seq<Batch>>)
    ensures Collected(userCohorts, centerIds, batchMap)
  {
    centerIds, batchMap := [], map[];
    for i := 0 to |userCohorts|
      invariant Collected(userCohorts[..i], centerIds, batchMap)
    {
      var cohort := userCohorts[i];
      ghost var ids, before := centerIds, batchMap;
      if cohort.kind == BATCH && cohort.parentId.Some? {
        var centerId := cohort.parentId.value;
        if centerId !in batchMap {
          batchMap := batchMap[centerId := []];
        }
        if !HasBatch(batchMap[centerId], cohort.cohortId) {
          batchMap := batchMap[centerId := batchMap[centerId] + [Batch(cohort.cohortId, cohort.name)]];
        }
        if centerId !in centerIds {
          centerIds := centerIds + [centerId];
        }
      } else if cohort.kind == CENTER || cohort.kind == COHORT {
        var centerId := cohort.cohortId;
        if centerId !in batchMap {
          batchMap := batchMap[centerId := []];
        }
        if centerId !in centerIds {
          centerIds := centerIds + [centerId];
        }
      }
      assert userCohorts[..i + 1] == userCohorts[..i] + [cohort];
      CollectedOneMore(userCohorts[..i], cohort, ids, before, centerIds, batchMap);
    }
    assert userCohorts[..|userCohorts|] == userCohorts;
  }

  function BatchesAt(batchMap: map<string, seq<Batch>>, c: string): seq<Batch> {
    if c in batchMap then batchMap[c] else []
  }

  function WithBatch(batches: seq<Batch>, m: Membership): seq<Batch> {
    if HasBatch(batches, m.cohortId) then batches else batches + [Batch(m.cohortId, m.name)]
  }

  lemma CollectedOneMore(cohorts: seq<Membership>, m: Membership,
                         ids: seq<string>, before: map<string, seq<Batch>>,
                         ids': seq<string>, after: map<string, seq<Batch>>)
    requires Collected(cohorts, ids, before)
    requires CenterOf(m) == None ==> ids' == ids && after == before
    requires CenterOf(m).Some? ==>
      var c := CenterOf(m).value;
      && ids' == (if c in ids then ids else ids + [c])
      && after == before[c := if m.kind == BATCH then WithBatch(BatchesAt(before, c), m) else BatchesAt(before, c)]
    ensures Collected(cohorts + [m], ids', after)
  {
    var more := cohorts + [m];
    forall c ensures c in ids' <==> Counts(more, c) {
      assert Counts(more, c) <==> Counts(cohorts, c) || CenterOf(m) == Some(c) by {
        assert m in more;
      }
    }
    forall c | c in after ensures BatchesFit(more, c, after[c]) {
      if c !in before {
        NoBatchesYet(cohorts, c);
      }
      assert BatchesFit(cohorts, c, BatchesAt(before, c));
      FitOneMore(cohorts, c, BatchesAt(before, c), m);
    }
  }

  lemma NoBatchesYet(cohorts: seq<Membership>, c: string)
    requires !Counts(cohorts, c)
    ensures BatchesFit(cohorts, c, [])
  {
  }

  lemma FitOneMore(cohorts: seq<Membership>, c: string, batches: seq<Batch>, m: Membership)
    requires BatchesFit(cohorts, c, batches)
    ensures BatchesFit(cohorts + [m], c, if IsBatchOf(m, c) then WithBatch(batches, m) else batches)
  {
    var more, after := cohorts + [m], if IsBatchOf(m, c) then WithBatch(batches, m) else batches;
    assert m in more;
    forall b | b in after ensures FromMembership(more, c, b) {
      if b in batches {
        var x :| x in cohorts && IsBatchOf(x, c) && b == Batch(x.cohortId, x.name);
        assert x in more;
      }
    }
    forall x | x in more && IsBatchOf(x, c) ensures HasBatch(after, x.cohortId) {
      if x in cohorts {
        var i :| 0 <= i < |batches| && batches[i].batchId == x.cohortId;
        assert after[i] == batches[i];
      } else if !HasBatch(batches, m.cohortId) {
        assert after[|batches|].batchId == m.cohortId;
      }
    }
  }

  // ---------------------------------------------------------------- step 5: the nested maps

  /** A center as the answer lists it. */
  datatype Entry = Entry(centerId: string, centerName: string, batches: seq<Batch>)

  /** A Map, whose entries keep the order in which their keys were first set. */
  datatype Group<V> = Group(key: string, value: V)

  type Blocks = seq<Group<seq<Entry>>>
  type Districts = seq<Group<Blocks>>
  type States = seq<Group<Districts>>

  /** The keys of a center, from the state down. */
  type Path = (string, (string, (string, Entry)))

  predicate UniqueKeys<V>(groups: seq<Group<V>>) {
    forall i, j :: 0 <= i < j < |groups| ==> groups[i].key != groups[j].key
  }

  predicate HasKey<V>(groups: seq<Group<V>>, key: string) {
    exists i :: 0 <= i < |groups| && groups[i].key == key
  }

  /** `get` the value of a key, `set` to `empty` when there is none, and change it in place. */
  function Upsert<V>(groups: seq<Group<V>>, key: string, empty: V, change: V -> V): seq<Group<V>> {
    if groups == [] then [Group(key, change(empty))]
    else if groups[0].key == key then [Group(key, change(groups[0].value))] + groups[1..]
    else [groups[0]] + Upsert(groups[1..], key, empty, change)
  }

  function Tagged<T>(key: string, items: seq<T>): seq<(string, T)> {
    if items == [] then [] else [(key, items[0])] + Tagged(key, items[1..])
  }

  /** What is in the groups, each item with its key. */
  function Flat<V, T>(groups: seq<Group<V>>, flat: V -> seq<T>): seq<(string, T)> {
    if groups == [] then [] else Tagged(groups[0].key, flat(groups[0].value)) + Flat(groups[1..], flat)
  }

  function FlatBlocks(blocks: Blocks): seq<(string, Entry)> {
    Flat(blocks, (es: seq<Entry>) => es)
  }

  function FlatDistricts(districts: Districts): seq<(string, (string, Entry))> {
    Flat(districts, (bs: Blocks) => FlatBlocks(bs))
  }

  function FlatStates(states: States): seq<Path> {
    Flat(states, (ds: Districts) => FlatDistricts(ds))
  }

  function PushBlock(blocks: Blocks, block: string, e: Entry): Blocks {
    Upsert(blocks, block, [], (es: seq<Entry>) => es + [e])
  }

  function PushDistrict(districts: Districts, district: string, block: string, e: Entry): Districts {
    Upsert(districts, district, [], (bs: Blocks) => PushBlock(bs, block, e))
  }

  function PushState(states: States, state: string, district: string, block: string, e: Entry): States {
    Upsert(states, state, [], (ds: Districts) => PushDistrict(ds, district, block, e))
  }

  /** Keys are unique at every level. */
  predicate Nested(states: States) {
    && UniqueKeys(states)
    && forall i :: 0 <= i < |states| ==> NestedDistricts(states[i].value)
  }

  predicate NestedDistricts(districts: Districts) {
    UniqueKeys(districts) && forall i :: 0 <= i < |districts| ==> UniqueKeys(districts[i].value)
  }

  lemma {:induction false} TaggedCounts<T>(key: string, items: seq<T>, y: (string, T))
    ensures Count(Tagged(key, items), y) == if y.0 == key then Count(items, y.1) else 0
  {
    if items != [] {
      TaggedCounts(key, items[1..], y);
      CountJoin([(key, items[0])], Tagged(key, items[1..]), y);
      CountJoin([items[0]], items[1..], y.1);
      assert items == [items[0]] + items[1..];
    }
  }

  /** The change makes every value gain the item x and nothing else, as far as the item y shows. */
  ghost predicate Gains<V(!new), T>(change: V -> V, flat: V -> seq<T>, x: T, y: T) {
    forall v :: Count(flat(change(v)), y) == Count(flat(v), y) + One(x == y)
  }

  /** Changing one group so that it gains one item makes the whole gain that item under the group's key. */
  lemma {:induction false} UpsertGains<V(!new), T>(groups: seq<Group<V>>, key: string, empty: V, change: V -> V,
                                         flat: V -> seq<T>, x: T, y: (string, T))
    requires flat(empty) == [] && Gains(change, flat, x, y.1)
    ensures Count(Flat(Upsert(groups, key, empty, change), flat), y)
      == Count(Flat(groups, flat), y) + One((key, x) == y)
  {
    if groups == [] {
      TaggedCounts(key, flat(change(empty)), y);
      assert Flat([Group(key, change(empty))], flat) == Tagged(key, flat(change(empty))) + [];
    } else {
      var g := groups[0];
      CountJoin(Tagged(g.key, flat(g.value)), Flat(groups[1..], flat), y);
      if g.key == key {
        TaggedCounts(key, flat(g.value), y);
        TaggedCounts(key, flat(change(g.value)), y);
        CountJoin(Tagged(key, flat(change(g.value))), Flat(groups[1..], flat), y);
        FlatCons(Group(key, change(g.value)), groups[1..], flat);
      } else {
        UpsertGains(groups[1..], key, empty, change, flat, x, y);
        var rest := Upsert(groups[1..], key, empty, change);
        FlatCons(g, rest, flat);
        CountJoin(Tagged(g.key, flat(g.value)), Flat(rest, flat), y);
      }
    }
  }

  lemma FlatCons<V, T>(g: Group<V>, rest: seq<Group<V>>, flat: V -> seq<T>)
    ensures Flat([g] + rest, flat) == Tagged(g.key, flat(g.value)) + Flat(rest, flat)
  {
  }

  /** Pushing a center adds that center on its path and nothing else. */
  lemma PushGains(states: States, state: string, district: string, block: string, e: Entry, y: Path)
    ensures Count(FlatStates(PushState(states, state, district, block, e)), y)
         == Count(FlatStates(states), y) + One((state, (district, (block, e))) == y)
  {
    forall bs: Blocks ensures Count(FlatBlocks(PushBlock(bs, block, e)), y.1.1)
      == Count(FlatBlocks(bs), y.1.1) + One((block, e) == y.1.1) {
      PushBlockGains(bs, block, e, y.1.1);
    }
    forall ds: Districts ensures Count(FlatDistricts(PushDistrict(ds, district, block, e)), y.1)
      == Count(FlatDistricts(ds), y.1) + One((district, (block, e)) == y.1) {
      PushDistrictGains(ds, district, block, e, y.1);
    }
    UpsertGains(states, state, [], (ds: Districts) => PushDistrict(ds, district, block, e),
      (ds: Districts) => FlatDistricts(ds),
      (district, (block, e)), y);
  }

  lemma PushBlockGains(blocks: Blocks, block: string, e: Entry, y: (string, Entry))
    ensures Count(FlatBlocks(PushBlock(blocks, block, e)), y) == Count(FlatBlocks(blocks), y) + One((block, e) == y)
  {
    UpsertGains(blocks, block, [], (es: seq<Entry>) => es + [e], (es: seq<Entry>) => es, e, y);
  }

  lemma PushDistrictGains(districts: Districts, district: string, block: string, e: Entry, y: (string, (string, Entry)))
    ensures Count(FlatDistricts(PushDistrict(districts, district, block, e)), y)
         == Count(FlatDistricts(districts), y) + One((district, (block, e)) == y)
  {
    forall bs: Blocks ensures Count(FlatBlocks(PushBlock(bs, block, e)), y.1)
      == Count(FlatBlocks(bs), y.1) + One((block, e) == y.1) {
      PushBlockGains(bs, block, e, y.1);
    }
    UpsertGains(districts, district, [], (bs: Blocks) => PushBlock(bs, block, e), (bs: Blocks) => FlatBlocks(bs),
      (block, e), y);
  }

  lemma {:induction false} UpsertKeys<V>(groups: seq<Group<V>>, key: string, empty: V, change: V -> V)
    requires UniqueKeys(groups)
    ensures UniqueKeys(Upsert(groups, key, empty, change))
    ensures forall g :: g in Upsert(groups, key, empty, change) ==> g.key == key || HasKey(groups, g.key)
  {
    if groups != [] && groups[0].key != key {
      var rest := Upsert(groups[1..], key, empty, change);
      UpsertKeys(groups[1..], key, empty, change);
      forall i | 0 <= i < |rest|
        ensures rest[i].key != groups[0].key && (rest[i].key == key || HasKey(groups, rest[i].key))
      {
        assert rest[i] in rest;
        if rest[i].key != key {
          var j :| 0 <= j < |groups| - 1 && groups[1..][j].key == rest[i].key;
          assert groups[j + 1].key == rest[i].key;
        }
      }
      assert Upsert(groups, key, empty, change) == [groups[0]] + rest;
    } else {
      forall g | g in groups ensures HasKey(groups, g.key) {
        var i :| 0 <= i < |groups| && groups[i] == g;
      }
    }
  }

  predicate AllOk<V>(groups: seq<Group<V>>, ok: V -> bool) {
    forall i :: 0 <= i < |groups| ==> ok(groups[i].value)
  }

  lemma {:induction false} UpsertOk<V(!new)>(groups: seq<Group<V>>, key: string, empty: V, change: V -> V,
                                      ok: V -> bool)
    requires AllOk(groups, ok) && ok(empty) && forall v :: ok(v) ==> ok(change(v))
    ensures AllOk(Upsert(groups, key, empty, change), ok)
  {
    if groups != [] && groups[0].key != key {
      UpsertOk(groups[1..], key, empty, change, ok);
    }
  }

  lemma PushNested(states: States, state: string, district: string, block: string, e: Entry)
    requires Nested(states)
    ensures Nested(PushState(states, state, district, block, e))
  {
    var change := (ds: Districts) => PushDistrict(ds, district, block, e);
    var ok := (ds: Districts) => NestedDistricts(ds);
    forall ds: Districts | NestedDistricts(ds) ensures NestedDistricts(PushDistrict(ds, district, block, e)) {
      PushDistrictNested(ds, district, block, e);
    }
    UpsertKeys(states, state, [], change);
    UpsertOk(states, state, [], change, ok);
    var r := PushState(states, state, district, block, e);
    forall i | 0 <= i < |r| ensures NestedDistricts(r[i].value) {
      assert ok(r[i].value);
    }
  }

  lemma PushDistrictNested(districts: Districts, district: string, block: string, e: Entry)
    requires NestedDistricts(districts)
    ensures NestedDistricts(PushDistrict(districts, district, block, e))
  {
    var change := (bs: Blocks) => PushBlock(bs, block, e);
    var ok := (bs: Blocks) => UniqueKeys(bs);
    forall bs: Blocks | UniqueKeys(bs) ensures UniqueKeys(PushBlock(bs, block, e)) {
      UpsertKeys(bs, block, [], (es: seq<Entry>) => es + [e]);
    }
    UpsertKeys(districts, district, [], change);
    UpsertOk(districts, district, [], change, ok);
    var r := PushDistrict(districts, district, block, e);
    forall i | 0 <= i < |r| ensures UniqueKeys(r[i].value) {
      assert ok(r[i].value);
    }
  }

  // ---------------------------------------------------------------- steps 3 to 7: the answer

  const UNKNOWN := "unknown"

  function KeyFor(place: Option<string>): string {
    if place.Some? then place.value else UNKNOWN
  }

  function EntryFor(c: Center, batchMap: map<string, seq<Batch>>): Entry {
    Entry(c.centerId, c.centerName, BatchesAt(batchMap, c.centerId))
  }

  /** Where the center belongs. */
  function PathOf(c: Center, batchMap: map<string, seq<Batch>>): Path {
    (KeyFor(c.state), (KeyFor(c.district), (KeyFor(c.block), EntryFor(c, batchMap))))
  }

  function Paths(centers: seq<Center>, batchMap: map<string, seq<Batch>>): seq<Path> {
    if centers == [] then []
    else
      var n := |centers| - 1;
      Paths(centers[..n], batchMap) + if centers[n].included then [PathOf(centers[n], batchMap)] else []
  }

  ghost predicate SameItems<T(!new)>(a: seq<T>, b: seq<T>) {
    forall y :: Count(a, y) == Count(b, y)
  }

  method BuildHierarchy(centers: seq<Center>, batchMap: map<string, seq<Batch>>) returns (hierarchy: States)
    ensures Nested(hierarchy) && SameItems(FlatStates(hierarchy), Paths(centers, batchMap))
  {
    hierarchy := [];
    for i := 0 to |centers|
      invariant Nested(hierarchy) && SameItems(FlatStates(hierarchy), Paths(centers[..i], batchMap))
    {
      var c := centers[i];
      assert centers[..i + 1][..i] == centers[..i];
      if c.included {
        PlacesOneMore(hierarchy, Paths(centers[..i], batchMap), c, batchMap);
        PushNested(hierarchy, KeyFor(c.state), KeyFor(c.district), KeyFor(c.block), EntryFor(c, batchMap));
        hierarchy := PushState(hierarchy, KeyFor(c.state), KeyFor(c.district), KeyFor(c.block), EntryFor(c, batchMap));
      }
    }
    assert centers[..|centers|] == centers;
  }

  lemma PlacesOneMore(states: States, paths: seq<Path>, c: Center, batchMap: map<string, seq<Batch>>)
    requires SameItems(FlatStates(states), paths)
    ensures SameItems(FlatStates(PushState(states, KeyFor(c.state), KeyFor(c.district), KeyFor(c.block),
      EntryFor(c, batchMap))),
      paths + [PathOf(c, batchMap)])
  {
    forall y ensures Count(FlatStates(PushState(states, KeyFor(c.state), KeyFor(c.district), KeyFor(c.block),
      EntryFor(c, batchMap))), y)
      == Count(paths + [PathOf(c, batchMap)], y)
    {
      PushGains(states, KeyFor(c.state), KeyFor(c.district), KeyFor(c.block), EntryFor(c, batchMap), y);
      CountJoin(paths, [PathOf(c, batchMap)], y);
    }
  }

  datatype BlockData = BlockData(blockId: Option<string>, blockName: string, centers: seq<Entry>)
  datatype DistrictData = DistrictData(districtId: Option<string>, districtName: string, blocks: seq<BlockData>)
  datatype StateData = StateData(stateId: Option<string>, stateName: string, districts: seq<DistrictData>)

  function IdFor(key: string): Option<string> {
    if key == UNKNOWN then None else Some(key)
  }

  function FirstOfBlocks(blocks: Blocks): Option<Entry> {
    if blocks != [] && blocks[0].value != [] then Some(blocks[0].value[0]) else None
  }

  function FirstOfDistricts(districts: Districts): Option<Entry> {
    if districts != [] then FirstOfBlocks(districts[0].value) else None
  }

  /** The first center that is listed gives the place its name. */
  function NameFor(first: Option<Entry>, geo: map<string, Center>, nameOf: Center -> Option<string>): string {
    if first.Some? && first.value.centerId in geo && nameOf(geo[first.value.centerId]).Some?
    then nameOf(geo[first.value.centerId]).value else "Unknown"
  }

  /** An id is the key, and null where the key stands for an unknown place. */
  predicate IdShows(id: Option<string>, key: string) {
    id == if key == "unknown" then None else Some(key)
  }

  /** The name is that of the place of the first of the centers, as far as it is known. */
  predicate NameShows(name: string, centers: seq<Entry>, geo: map<string, Center>, nameOf: Center -> Option<string>) {
    if centers == [] || centers[0].centerId !in geo then name == "Unknown"
    else name == match nameOf(geo[centers[0].centerId])
                 case Some(known) => known
                 case None => "Unknown"
  }

  predicate ShowsBlocks(out: seq<BlockData>, blocks: Blocks, geo: map<string, Center>) {
    && |out| == |blocks|
    && forall i :: 0 <= i < |out| ==>
         && IdShows(out[i].blockId, blocks[i].key)
         && NameShows(out[i].blockName, blocks[i].value, geo, (c: Center) => c.blockName)
         && out[i].centers == blocks[i].value
  }

  predicate ShowsDistricts(out: seq<DistrictData>, districts: Districts, geo: map<string, Center>) {
    && |out| == |districts|
    && forall i :: 0 <= i < |out| ==>
         && IdShows(out[i].districtId, districts[i].key)
         && NameShows(out[i].districtName, if districts[i].value == [] then [] else districts[i].value[0].value, geo,
                      (c: Center) => c.districtName)
         && ShowsBlocks(out[i].blocks, districts[i].value, geo)
  }

  /** The answer shows the nested maps place by place, with null for the unknown. */
  predicate Shows(out: seq<StateData>, states: States, geo: map<string, Center>) {
    && |out| == |states|
    && forall i :: 0 <= i < |out| ==>
         && IdShows(out[i].stateId, states[i].key)
         && NameShows(out[i].stateName,
                      if states[i].value == [] || states[i].value[0].value == [] then []
                      else states[i].value[0].value[0].value, geo, (c: Center) => c.stateName)
         && ShowsDistricts(out[i].districts, states[i].value, geo)
  }

  method Convert(hierarchy: States, geo: map<string, Center>) returns (result: seq<StateData>)
    ensures Shows(result, hierarchy, geo)
  {
    result := [];
    for i := 0 to |hierarchy|
      invariant Shows(result, hierarchy[..i], geo)
    {
      var districtMap := hierarchy[i].value;
      var name := NameFor(FirstOfDistricts(districtMap), geo, (c: Center) => c.stateName);
      var districts := ConvertDistricts(districtMap, geo);
      result := result + [StateData(IdFor(hierarchy[i].key), name, districts)];
    }
    assert hierarchy[..|hierarchy|] == hierarchy;
  }

  method ConvertDistricts(districtMap: Districts, geo: map<string, Center>) returns (districts: seq<DistrictData>)
    ensures ShowsDistricts(districts, districtMap, geo)
  {
    districts := [];
    for j := 0 to |districtMap|
      invariant ShowsDistricts(districts, districtMap[..j], geo)
    {
      var blockMap := districtMap[j].value;
      var name := NameFor(FirstOfBlocks(blockMap), geo, (c: Center) => c.districtName);
      var blocks := ConvertBlocks(blockMap, geo);
      districts := districts + [DistrictData(IdFor(districtMap[j].key), name, blocks)];
    }
    assert districtMap[..|districtMap|] == districtMap;
  }

  method ConvertBlocks(blockMap: Blocks, geo: map<string, Center>) returns (blocks: seq<BlockData>)
    ensures ShowsBlocks(blocks, blockMap, geo)
  {
    blocks := [];
    for k := 0 to |blockMap|
      invariant ShowsBlocks(blocks, blockMap[..k], geo)
    {
      var centers := blockMap[k].value;
      var first := if centers != [] then Some(centers[0]) else None;
      blocks := blocks + [BlockData(IdFor(blockMap[k].key), NameFor(first, geo, (c: Center) => c.blockName), centers)];
    }
    assert blockMap[..|blockMap|] == blockMap;
  }

  /** The rows of the centers asked for. */
  function Select(table: seq<Center>, ids: seq<string>): seq<Center> {
    if table == [] then []
    else
      var n := |table| - 1;
      Select(table[..n], ids) + if table[n].centerId in ids then [table[n]] else []
  }

  /** `centerGeoDataMap`: the centers that pass the place filters. */
  function Index(centers: seq<Center>): map<string, Center> {
    if centers == [] then map[]
    else
      var n := |centers| - 1;
      if centers[n].included then Index(centers[..n])[centers[n].centerId := centers[n]] else Index(centers[..n])
  }

  /** Under the id of each center that passes stands that center, and nothing else is there. */
  lemma {:induction false} IndexIs(centers: seq<Center>, c: Center, id: string)
    requires UniqueCenters(centers)
    ensures c in centers && c.included ==> c.centerId in Index(centers) && Index(centers)[c.centerId] == c
    ensures id in Index(centers) ==>
      Index(centers)[id] in centers && Index(centers)[id].centerId == id && Index(centers)[id].included
  {
    if centers != [] {
      var n := |centers| - 1;
      assert centers == centers[..n] + [centers[n]];
      IndexIs(centers[..n], c, id);
      forall d | d in centers[..n] ensures d.centerId != centers[n].centerId {
        var i :| 0 <= i < n && centers[..n][i] == d;
        assert centers[i] == d;
      }
    }
  }

  datatype Reply = CohortNotFound | Page(data: seq<StateData>, totalCount: nat)

  /**
   The whole answer: its states, districts and blocks each come once, and hold every included center
   exactly once, on the path of its own places, with the distinct batches of the user's memberships
   under it. What is returned is one slice of it.
   */
  ghost predicate Conserves(userCohorts: seq<Membership>, table: seq<Center>, centerIds: seq<string>,
                            batchMap: map<string, seq<Batch>>, hierarchy: States, result: seq<StateData>) {
    && Collected(userCohorts, centerIds, batchMap)
    && Nested(hierarchy)
    && (forall y :: Count(FlatStates(hierarchy), y) == One(SomeAt(table, centerIds, batchMap, y)))
    && Shows(result, hierarchy, Index(Select(table, centerIds)))
  }

  function Located(row: CenterRow, filters: Filters): Center {
    var places := PlacesOf(row.fields);
    Center(row.centerId, row.centerName, places.state.id, places.district.id, places.block.id,
      places.state.name, places.district.name, places.block.name, Passes(filters, row.centerId, places))
  }

  /** The centers of the table with their places. */
  function Table(rows: seq<CenterRow>, filters: Filters): (table: seq<Center>)
    ensures |table| == |rows| && forall i :: 0 <= i < |rows| ==> table[i] == Located(rows[i], filters)
  {
    seq(|rows|, i requires 0 <= i < |rows| => Located(rows[i], filters))
  }

  method LocateCenters(rows: seq<CenterRow>, filters: Filters, ids: seq<string>) returns (centers: seq<Center>)
    ensures centers == Select(Table(rows, filters), ids)
  {
    centers := [];
    for i := 0 to |rows|
      invariant centers == Select(Table(rows, filters)[..i], ids)
    {
      assert Table(rows, filters)[..i + 1][..i] == Table(rows, filters)[..i];
      if rows[i].centerId in ids {
        var geoData := ExtractPlaces(rows[i].fields);
        var shouldInclude := ShouldInclude(filters, rows[i].centerId, geoData);
        centers := centers + [Center(rows[i].centerId, rows[i].centerName,
          geoData.state.id, geoData.district.id, geoData.block.id,
          geoData.state.name, geoData.district.name, geoData.block.name, shouldInclude)];
      }
    }
    assert Table(rows, filters)[..|rows|] == Table(rows, filters);
  }

  predicate UniqueRows(rows: seq<CenterRow>) {
    forall i, j :: 0 <= i < j < |rows| ==> rows[i].centerId != rows[j].centerId
  }

  method GetUserGeographicalHierarchy(
    userCohorts: seq<Membership>, rows: seq<CenterRow>, filters: Filters, limit: nat, offset: nat)
    returns (reply: Reply, ghost centerIds: seq<string>, ghost batchMap: map<string, seq<Batch>>,
             ghost hierarchy: States, ghost result: seq<StateData>)
    requires UniqueRows(rows)
    ensures reply == CohortNotFound <==> forall m :: m in userCohorts ==> CenterOf(m) == None
    ensures reply.Page? ==> Conserves(userCohorts, Table(rows, filters), centerIds, batchMap, hierarchy, result)
    ensures reply.Page? ==> reply.data == Slice(result, offset, if limit == 0 then 100 else limit)
    ensures reply.Page? ==> reply.totalCount == |result|
  {
    centerIds, batchMap, hierarchy, result := [], map[], [], [];
    if |userCohorts| == 0 {
      return CohortNotFound, centerIds, batchMap, hierarchy, result;
    }
    var ids, batches := CollectCenters(userCohorts);
    centerIds, batchMap := ids, batches;
    if |ids| == 0 {
      assert forall m :: m in userCohorts && CenterOf(m).Some? ==> Counts(userCohorts, CenterOf(m).value);
      return CohortNotFound, centerIds, batchMap, hierarchy, result;
    }
    assert Counts(userCohorts, ids[0]);
    var centers := LocateCenters(rows, filters, ids);
    var states := BuildHierarchy(centers, batches);
    var all := Convert(states, Index(centers));
    forall y ensures Count(FlatStates(states), y) == One(SomeAt(Table(rows, filters), ids, batches, y)) {
      EveryCenterOnce(Table(rows, filters), ids, batches, y);
    }
    hierarchy, result := states, all;
    reply := Page(Slice(all, offset, if limit == 0 then 100 else limit), |all|);
  }

  predicate UniqueCenters(table: seq<Center>) {
    forall i, j :: 0 <= i < j < |table| ==> table[i].centerId != table[j].centerId
  }

  predicate IsAt(c: Center, ids: seq<string>, batchMap: map<string, seq<Batch>>, y: Path) {
    c.centerId in ids && c.included && PathOf(c, batchMap) == y
  }

  predicate SomeAt(table: seq<Center>, ids: seq<string>, batchMap: map<string, seq<Batch>>, y: Path) {
    exists c :: c in table && IsAt(c, ids, batchMap, y)
  }

  lemma OneMoreAt(table: seq<Center>, c: Center, ids: seq<string>, batchMap: map<string, seq<Batch>>, y: Path)
    requires forall d :: d in table ==> d.centerId != c.centerId
    ensures One(SomeAt(table + [c], ids, batchMap, y))
      == One(SomeAt(table, ids, batchMap, y)) + One(IsAt(c, ids, batchMap, y))
  {
  }

  /**
   With unique rows every included center asked for is on the path of its places, once, and nothing else
   is on any.
   */
  lemma {:induction false} EveryCenterOnce(table: seq<Center>, ids: seq<string>, batchMap: map<string, seq<Batch>>,
                                           y: Path)
    requires UniqueCenters(table)
    ensures Count(Paths(Select(table, ids), batchMap), y) == One(SomeAt(table, ids, batchMap, y))
  {
    if table != [] {
      var n := |table| - 1;
      var c := table[n];
      EveryCenterOnce(table[..n], ids, batchMap, y);
      forall d | d in table[..n] ensures d.centerId != c.centerId {
        var i :| 0 <= i < n && table[..n][i] == d;
        assert table[i] == d;
      }
      OneMoreAt(table[..n], c, ids, batchMap, y);
      OneMoreSelected(table[..n], c, ids, batchMap, y);
      assert table == table[..n] + [c];
    }
  }

  lemma OneMoreSelected(table: seq<Center>, c: Center, ids: seq<string>, batchMap: map<string, seq<Batch>>, y: Path)
    ensures Count(Paths(Select(table + [c], ids), batchMap), y)
         == Count(Paths(Select(table, ids), batchMap), y) + One(IsAt(c, ids, batchMap, y))
  {
    var before := Select(table, ids);
    assert (table + [c])[..|table|] == table;
    if c.centerId in ids {
      assert Select(table + [c], ids) == before + [c];
      PathsAppend(before, c, batchMap);
      CountLast(Paths(before, batchMap), PathOf(c, batchMap), y);
    } else {
      assert Select(table + [c], ids) == before + [] == before;
    }
  }

  lemma CountLast(paths: seq<Path>, path: Path, y: Path)
    ensures Count(paths + [path], y) == Count(paths, y) + One(path == y)
    ensures Count(paths + [], y) == Count(paths, y)
  {
  }

  lemma PathsAppend(centers: seq<Center>, c: Center, batchMap: map<string, seq<Batch>>)
    ensures Paths(centers + [c], batchMap)
         == Paths(centers, batchMap) + if c.included then [PathOf(c, batchMap)] else []
  {
  }
}
