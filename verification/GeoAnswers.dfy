/**
 The answer about a user's centers, read without the maps it is made from: a center is listed below a
 state, a district and a block exactly when these are its own, and it counts and passes the filters.
 */
module GeoAnswers {
  import opened GeoHierarchy
  import opened CenterPlaces
  import opened JsValues
  import opened Lists

  predicate InBlocks(blocks: seq<BlockData>, block: Option<string>, e: Entry) {
    exists k :: 0 <= k < |blocks| && blocks[k].blockId == block && e in blocks[k].centers
  }

  predicate InDistricts(districts: seq<DistrictData>, district: Option<string>, block: Option<string>, e: Entry) {
    exists j :: 0 <= j < |districts| && districts[j].districtId == district && InBlocks(districts[j].blocks, block, e)
  }

  /** The answer lists `e` below the state, the district and the block. */
  predicate InStates(states: seq<StateData>, state: Option<string>, district: Option<string>, block: Option<string>,
                     e: Entry) {
    exists i ::
      0 <= i < |states| && states[i].stateId == state && InDistricts(states[i].districts, district, block, e)
  }

  /** An id as the answer shows it: the text for unknown places is taken for one. */
  function ShownId(place: Option<string>): Option<string> {
    if place == Some("unknown") then None else place
  }

  /** The center was asked for and passes, these are its places, and `e` is what is listed of it. */
  predicate IsCenterAt(c: Center, ids: seq<string>, batchMap: map<string, seq<Batch>>, state: Option<string>,
                       district: Option<string>, block: Option<string>, e: Entry) {
    && c.centerId in ids && c.included
    && state == ShownId(c.state) && district == ShownId(c.district) && block == ShownId(c.block)
    && c.centerId in batchMap && e == Entry(c.centerId, c.centerName, batchMap[c.centerId])
  }

  // ---------------------------------------------------------------- the maps

  lemma {:induction false} InTagged<T>(key: string, items: seq<T>, y: (string, T))
    ensures y in Tagged(key, items) <==> y.0 == key && y.1 in items
  {
    if items != [] {
      InTagged(key, items[1..], y);
      assert y.1 in items <==> y.1 == items[0] || y.1 in items[1..];
    }
  }

  predicate InGroup<V, T(==)>(groups: seq<Group<V>>, flat: V -> seq<T>, i: nat, y: (string, T)) {
    i < |groups| && groups[i].key == y.0 && y.1 in flat(groups[i].value)
  }

  lemma {:induction false} InFlatIff<V, T>(groups: seq<Group<V>>, flat: V -> seq<T>, y: (string, T))
    ensures y in Flat(groups, flat) <==> exists i: nat :: InGroup(groups, flat, i, y)
  {
    if groups != [] {
      var g, rest := groups[0], groups[1..];
      InTagged(g.key, flat(g.value), y);
      InFlatIff(rest, flat, y);
      if InGroup(groups, flat, 0, y) {
        assert y in Tagged(g.key, flat(g.value));
      }
      if i: nat :| InGroup(rest, flat, i, y) {
        assert InGroup(groups, flat, i + 1, y);
      }
      if i: nat :| i > 0 && InGroup(groups, flat, i, y) {
        assert InGroup(rest, flat, i - 1, y);
      }
    }
  }

  ghost predicate KeyedBlocks(blocks: Blocks, block: Option<string>, e: Entry) {
    exists key :: IdShows(block, key) && (key, e) in FlatBlocks(blocks)
  }

  ghost predicate KeyedDistricts(districts: Districts, district: Option<string>, block: Option<string>, e: Entry) {
    exists key, below ::
      IdShows(district, key) && IdShows(block, below) && (key, (below, e)) in FlatDistricts(districts)
  }

  ghost predicate KeyedStates(states: States, state: Option<string>, district: Option<string>, block: Option<string>,
                              e: Entry) {
    exists key, below, last ::
      && IdShows(state, key) && IdShows(district, below) && IdShows(block, last)
      && (key, (below, (last, e))) in FlatStates(states)
  }

  lemma BlocksAreKeyed(out: seq<BlockData>, blocks: Blocks, geo: map<string, Center>, block: Option<string>, e: Entry)
    requires ShowsBlocks(out, blocks, geo)
    ensures InBlocks(out, block, e) <==> KeyedBlocks(blocks, block, e)
  {
    var flat := (es: seq<Entry>) => es;
    if InBlocks(out, block, e) {
      var k :| 0 <= k < |out| && out[k].blockId == block && e in out[k].centers;
      InFlatIff(blocks, flat, (blocks[k].key, e));
      assert InGroup(blocks, flat, k, (blocks[k].key, e));
    }
    if KeyedBlocks(blocks, block, e) {
      var key :| IdShows(block, key) && (key, e) in FlatBlocks(blocks);
      InFlatIff(blocks, flat, (key, e));
      var k: nat :| InGroup(blocks, flat, k, (key, e));
      assert IdShows(out[k].blockId, blocks[k].key);
    }
  }

  lemma DistrictsAreKeyed(out: seq<DistrictData>, districts: Districts, geo: map<string, Center>,
                          district: Option<string>, block: Option<string>, e: Entry)
    requires ShowsDistricts(out, districts, geo)
    ensures InDistricts(out, district, block, e) <==> KeyedDistricts(districts, district, block, e)
  {
    var flat := (bs: Blocks) => FlatBlocks(bs);
    if InDistricts(out, district, block, e) {
      var j :| 0 <= j < |out| && out[j].districtId == district && InBlocks(out[j].blocks, block, e);
      BlocksAreKeyed(out[j].blocks, districts[j].value, geo, block, e);
      var below :| IdShows(block, below) && (below, e) in FlatBlocks(districts[j].value);
      var y := (districts[j].key, (below, e));
      InFlatIff(districts, flat, y);
      assert InGroup(districts, flat, j, y);
    }
    if KeyedDistricts(districts, district, block, e) {
      var key, below :|
        IdShows(district, key) && IdShows(block, below) && (key, (below, e)) in FlatDistricts(districts);
      InFlatIff(districts, flat, (key, (below, e)));
      var j: nat :| InGroup(districts, flat, j, (key, (below, e)));
      BlocksAreKeyed(out[j].blocks, districts[j].value, geo, block, e);
      assert IdShows(out[j].districtId, districts[j].key);
    }
  }

  lemma StatesAreKeyed(out: seq<StateData>, states: States, geo: map<string, Center>, state: Option<string>,
                       district: Option<string>, block: Option<string>, e: Entry)
    requires Shows(out, states, geo)
    ensures InStates(out, state, district, block, e) <==> KeyedStates(states, state, district, block, e)
  {
    var flat := (ds: Districts) => FlatDistricts(ds);
    if InStates(out, state, district, block, e) {
      StatesHaveKeys(out, states, geo, state, district, block, e);
    }
    if KeyedStates(states, state, district, block, e) {
      var key, below, last :|
        && IdShows(state, key) && IdShows(district, below) && IdShows(block, last)
        && (key, (below, (last, e))) in FlatStates(states);
      InFlatIff(states, flat, (key, (below, (last, e))));
      var i: nat :| InGroup(states, flat, i, (key, (below, (last, e))));
      DistrictsAreKeyed(out[i].districts, states[i].value, geo, district, block, e);
      assert IdShows(out[i].stateId, states[i].key);
    }
  }

  lemma StatesHaveKeys(out: seq<StateData>, states: States, geo: map<string, Center>, state: Option<string>,
                       district: Option<string>, block: Option<string>, e: Entry)
    requires Shows(out, states, geo) && InStates(out, state, district, block, e)
    ensures KeyedStates(states, state, district, block, e)
  {
    var flat := (ds: Districts) => FlatDistricts(ds);
    var i :| 0 <= i < |out| && out[i].stateId == state && InDistricts(out[i].districts, district, block, e);
    DistrictsAreKeyed(out[i].districts, states[i].value, geo, district, block, e);
    var below, last :|
      IdShows(district, below) && IdShows(block, last) && (below, (last, e)) in FlatDistricts(states[i].value);
    var y := (states[i].key, (below, (last, e)));
    InFlatIff(states, flat, y);
    assert InGroup(states, flat, i, y);
  }

  // ---------------------------------------------------------------- the answer

  /** The keys of a path show these ids. */
  predicate ShowsPath(y: Path, state: Option<string>, district: Option<string>, block: Option<string>, e: Entry) {
    IdShows(state, y.0) && IdShows(district, y.1.0) && IdShows(block, y.1.1.0) && y.1.1.1 == e
  }

  /** A center on a path is the center at the places that the path shows. */
  lemma CenterOnPath(c: Center, ids: seq<string>, batchMap: map<string, seq<Batch>>, y: Path, state: Option<string>,
                     district: Option<string>, block: Option<string>, e: Entry)
    requires c.centerId in ids <==> c.centerId in batchMap
    ensures IsAt(c, ids, batchMap, y) && ShowsPath(y, state, district, block, e) ==>
      IsCenterAt(c, ids, batchMap, state, district, block, e)
    ensures IsCenterAt(c, ids, batchMap, state, district, block, e) ==>
      IsAt(c, ids, batchMap, PathOf(c, batchMap)) && ShowsPath(PathOf(c, batchMap), state, district, block, e)
  {
  }

  lemma OnPaths(states: States, state: Option<string>, district: Option<string>, block: Option<string>, e: Entry)
    ensures KeyedStates(states, state, district, block, e)
      <==> exists y :: y in FlatStates(states) && ShowsPath(y, state, district, block, e)
  {
    if y :| y in FlatStates(states) && ShowsPath(y, state, district, block, e) {
      assert (y.0, (y.1.0, (y.1.1.0, e))) in FlatStates(states);
    }
    if KeyedStates(states, state, district, block, e) {
      var key, below, last :|
        && IdShows(state, key) && IdShows(district, below) && IdShows(block, last)
        && (key, (below, (last, e))) in FlatStates(states);
      assert ShowsPath((key, (below, (last, e))), state, district, block, e);
    }
  }

  /** What the counts say: the paths in the maps are those of the centers. */
  lemma PathsAreCenters(table: seq<Center>, ids: seq<string>, batchMap: map<string, seq<Batch>>, states: States,
                        y: Path)
    requires forall p :: Count(FlatStates(states), p) == One(SomeAt(table, ids, batchMap, p))
    ensures y in FlatStates(states) <==> exists c :: c in table && IsAt(c, ids, batchMap, y)
  {
    assert Count(FlatStates(states), y) == One(SomeAt(table, ids, batchMap, y));
    assert y in FlatStates(states) <==> Count(FlatStates(states), y) > 0;
  }

  /**
   The whole answer lists an entry below a state, a district and a block if and only if it is that of a
   center of the user's memberships that passes the filters, and these are the center's own places.
   */
  lemma AnswerIsTheCenters(userCohorts: seq<Membership>, table: seq<Center>, ids: seq<string>,
                           batchMap: map<string, seq<Batch>>, hierarchy: States, result: seq<StateData>,
                           state: Option<string>, district: Option<string>, block: Option<string>, e: Entry)
    requires Conserves(userCohorts, table, ids, batchMap, hierarchy, result)
    ensures InStates(result, state, district, block, e)
      <==> exists c :: c in table && IsCenterAt(c, ids, batchMap, state, district, block, e)
  {
    StatesAreKeyed(result, hierarchy, Index(Select(table, ids)), state, district, block, e);
    KeyedAreCenters(table, ids, batchMap, hierarchy, state, district, block, e);
  }

  lemma KeyedAreCenters(table: seq<Center>, ids: seq<string>, batchMap: map<string, seq<Batch>>, states: States,
                        state: Option<string>, district: Option<string>, block: Option<string>, e: Entry)
    requires forall p :: Count(FlatStates(states), p) == One(SomeAt(table, ids, batchMap, p))
    requires forall c :: c in ids <==> c in batchMap
    ensures KeyedStates(states, state, district, block, e)
      <==> exists c :: c in table && IsCenterAt(c, ids, batchMap, state, district, block, e)
  {
    OnPaths(states, state, district, block, e);
    if y :| y in FlatStates(states) && ShowsPath(y, state, district, block, e) {
      PathsAreCenters(table, ids, batchMap, states, y);
      var c :| c in table && IsAt(c, ids, batchMap, y);
      CenterOnPath(c, ids, batchMap, y, state, district, block, e);
    }
    if c :| c in table && IsCenterAt(c, ids, batchMap, state, district, block, e) {
      var y := PathOf(c, batchMap);
      CenterOnPath(c, ids, batchMap, y, state, district, block, e);
      PathsAreCenters(table, ids, batchMap, states, y);
    }
  }
}
