/**
 Searches by custom fields that list one named `__proto__`: it is searched for and does not reach the
 cache key. When two searches with one key still select the same items from every table.
 */
module ProtoFilters {
  import opened CacheKeyUtil
  import opened FieldFilter
  import opened JsValues

  lemma {:induction false} StringsAreKept(items: CacheKeyUtil.Items)
    requires AllStrings(items)
    ensures StripItems(items) == items && ItemsProtoFree(items)
  {
    if items.Item? {
      StringsAreKept(items.tail);
    }
  }

  /** A body without its `__proto__` field is a body with the other entries. */
  lemma {:induction false} StrippedIs(props: Props)
    requires IsFilter(props) && Distinct(props) && PropsWellFormed(props)
    ensures var s := StripProps(props);
      IsFilter(s) && Distinct(s) && PropsWellFormed(s) && PropsProtoFree(s) && StripProps(s) == s
    ensures forall n :: n in CacheKeyUtil.Names(StripProps(props)) ==> n in CacheKeyUtil.Names(props)
    ensures forall f :: f in Entries(StripProps(props)) <==> f in Entries(props) && f.name != Proto
  {
    if props.Prop? {
      StrippedIs(props.rest);
      if props.value.JArr? {
        StringsAreKept(props.value.items);
      }
    }
  }

  lemma SameKeySameOthers(digest: string -> string, d: Entity, a: Props, e: Entity, b: Props)
    requires Injective(digest) && IsFilter(a) && IsFilter(b) && WellFormed(JObj(a)) && WellFormed(JObj(b))
    requires FilterKey(digest, d, a) == FilterKey(digest, e, b)
    ensures d == e
    ensures forall f: Filter :: f.name != Proto ==> (f in Entries(a) <==> f in Entries(b))
  {
    StrippedIs(a);
    StrippedIs(b);
    SortsAlikeIff(JObj(a), JObj(StripProps(a)));
    SortsAlikeIff(JObj(b), JObj(StripProps(b)));
    SameKeySameEntries(digest, d, StripProps(a), e, StripProps(b));
  }

  function ValueSet(f: Filter): set<string> {
    set x | x in f.values
  }

  /** What is asked of the field named `__proto__`: no set of values, or one. */
  function ProtoAsked(filters: seq<Filter>): set<set<string>> {
    set f | f in filters && f.name == Proto :: ValueSet(f)
  }

  /** A field other than that one with no value to choose from: nothing is selected then. */
  predicate AsksInVain(filters: seq<Filter>) {
    exists f :: f in filters && f.name != Proto && f.values == []
  }

  ghost predicate SelectAlike(e: Entity, a: seq<Filter>, b: seq<Filter>) {
    forall db: Database, item: string :: Selected(db, e, a, item) <==> Selected(db, e, b, item)
  }

  lemma SameValuesSameItems(db: Database, e: Entity, item: string, f: Filter, g: Filter)
    requires f.name == g.name && ValueSet(f) == ValueSet(g)
    ensures Satisfies(db, item, f, e) <==> Satisfies(db, item, g, e)
  {
    assert forall x :: x in f.values <==> x in ValueSet(f);
    assert forall x :: x in g.values <==> x in ValueSet(g);
    assert forall v, r :: Witness(item, v, r, f, e) <==> Witness(item, v, r, g, e);
  }

  lemma SelectsMore(db: Database, e: Entity, a: seq<Filter>, b: seq<Filter>, item: string)
    requires forall f: Filter :: f.name != Proto && f in b ==> f in a
    requires ProtoAsked(b) <= ProtoAsked(a) && Selected(db, e, a, item)
    ensures Selected(db, e, b, item)
  {
    forall f | f in b ensures Satisfies(db, item, f, e) {
      if f.name == Proto {
        assert ValueSet(f) in ProtoAsked(b);
        var g :| g in a && g.name == Proto && ValueSet(g) == ValueSet(f);
        SameValuesSameItems(db, e, item, f, g);
      }
    }
  }

  lemma VainSelectsNone(db: Database, e: Entity, filters: seq<Filter>, item: string)
    requires AsksInVain(filters)
    ensures !Selected(db, e, filters, item)
  {
    var f :| f in filters && f.name != Proto && f.values == [];
    assert !Satisfies(db, item, f, e);
  }

  // A table with one item, which has these values and no others.

  function Made(given: seq<Filter>): Database {
    Database(["u"], ["u"], seq(|given|, i requires 0 <= i < |given| => ValueRow("u", given[i].name, given[i].values)),
      seq(|given|, i requires 0 <= i < |given| => FieldRow(given[i].name, given[i].name, None)))
  }

  predicate Met(given: seq<Filter>, f: Filter) {
    exists i :: 0 <= i < |given| && given[i].name == f.name && exists x :: x in f.values && x in given[i].values
  }

  lemma MadeSatisfies(given: seq<Filter>, e: Entity, f: Filter)
    ensures Satisfies(Made(given), "u", f, e) <==> Met(given, f)
  {
    var db := Made(given);
    if v, r :| v in db.values && r in db.fields && Witness("u", v, r, f, e) {
      var i :| 0 <= i < |given| && db.values[i] == v;
      assert given[i].name == f.name;
    }
    if Met(given, f) {
      var i :| 0 <= i < |given| && given[i].name == f.name && exists x :: x in f.values && x in given[i].values;
      assert db.values[i] in db.values && db.fields[i] in db.fields && Witness("u", db.values[i], db.fields[i], f, e);
    }
  }

  lemma Separates(given: seq<Filter>, e: Entity, a: seq<Filter>, b: seq<Filter>, g: Filter)
    requires (forall f :: f in a ==> Met(given, f)) && g in b && !Met(given, g)
    ensures !SelectAlike(e, a, b) && !SelectAlike(e, b, a)
  {
    forall f | f in a ensures Satisfies(Made(given), "u", f, e) {
      MadeSatisfies(given, e, f);
    }
    MadeSatisfies(given, e, g);
    assert Selected(Made(given), e, a, "u") && !Selected(Made(given), e, b, "u");
  }

  predicate OneProto(filters: seq<Filter>) {
    forall f, g :: f in filters && g in filters && f.name == g.name == Proto ==> f == g
  }

  lemma MetByItself(given: seq<Filter>, f: Filter)
    requires f in given && f.values != []
    ensures Met(given, f)
  {
    var i :| 0 <= i < |given| && given[i] == f;
    assert f.values[0] in f.values;
  }

  function Others(filters: seq<Filter>): (r: seq<Filter>)
    ensures forall f :: f in r <==> f in filters && f.name != Proto
  {
    if filters == [] then []
    else (if filters[0].name == Proto then [] else [filters[0]]) + Others(filters[1..])
  }

  /** If the `__proto__` fields ask for something else, some table shows it. */
  lemma ProtoShows(e: Entity, a: seq<Filter>, b: seq<Filter>, f: Filter)
    requires forall h: Filter :: h.name != Proto ==> (h in a <==> h in b)
    requires !AsksInVain(a) && OneProto(a) && OneProto(b)
    requires f in a && f.name == Proto && ValueSet(f) !in ProtoAsked(b)
    ensures !SelectAlike(e, a, b)
  {
    var others := Others(a);
    if g :| g in b && g.name == Proto {
      assert ValueSet(g) in ProtoAsked(b);
      if x :| x in ValueSet(f) && x !in ValueSet(g) {
        ValueSeparates(e, others, a, b, f, g, x);
      } else {
        assert ValueSet(f) <= ValueSet(g) && ValueSet(f) != ValueSet(g);
        var y :| y in ValueSet(g) && y !in ValueSet(f);
        ValueSeparates(e, others, b, a, g, f, y);
      }
    } else {
      forall h | h in b ensures Met(others, h) {
        MetByItself(others, h);
      }
      Separates(others, e, b, a, f);
    }
  }

  lemma ValueSeparates(e: Entity, others: seq<Filter>, a: seq<Filter>, b: seq<Filter>, f: Filter, g: Filter, x: string)
    requires OneProto(a) && f in a && f.name == Proto && g in b && g.name == Proto
    requires x in ValueSet(f) && x !in ValueSet(g)
    requires forall h: Filter :: h in others ==> h.name != Proto
    requires forall h: Filter :: h in a && h.name != Proto ==> h in others && h.values != []
    ensures !SelectAlike(e, a, b) && !SelectAlike(e, b, a)
  {
    var given := others + [Filter(Proto, [x])];
    assert given[|others|] == Filter(Proto, [x]) && x in given[|others|].values;
    forall h | h in a ensures Met(given, h) {
      if h.name != Proto {
        MetByItself(given, h);
      }
    }
    assert forall i :: 0 <= i < |others| ==> given[i] in others;
    assert !Met(given, g);
    Separates(given, e, a, b, g);
  }

  lemma EntriesOneProto(props: Props)
    requires IsFilter(props) && Distinct(props)
    ensures OneProto(Entries(props))
  {
    forall f, g | f in Entries(props) && g in Entries(props) && f.name == g.name == Proto ensures f == g {
      EntriesMeant(props, f);
      EntriesMeant(props, g);
    }
  }

  /**
   Two searches with one cache key select the same items from every table if and only if they ask the
   same of the field named `__proto__`, or another field they share has no value to choose from.
   */
  lemma SameKeyAlikeIff(digest: string -> string, d: Entity, a: Props, e: Entity, b: Props)
    requires Injective(digest) && IsFilter(a) && IsFilter(b) && WellFormed(JObj(a)) && WellFormed(JObj(b))
    requires FilterKey(digest, d, a) == FilterKey(digest, e, b)
    ensures d == e
    ensures SelectAlike(d, Entries(a), Entries(b))
            <==> ProtoAsked(Entries(a)) == ProtoAsked(Entries(b)) || AsksInVain(Entries(a))
  {
    SameKeySameOthers(digest, d, a, e, b);
    EntriesOneProto(a);
    EntriesOneProto(b);
    AlikeIff(d, Entries(a), Entries(b));
  }

  lemma AlikeIff(e: Entity, a: seq<Filter>, b: seq<Filter>)
    requires forall f: Filter :: f.name != Proto ==> (f in a <==> f in b)
    requires OneProto(a) && OneProto(b)
    ensures SelectAlike(e, a, b) <==> ProtoAsked(a) == ProtoAsked(b) || AsksInVain(a)
  {
    if AsksInVain(a) {
      forall db: Database, item: string ensures !Selected(db, e, a, item) && !Selected(db, e, b, item) {
        VainSelectsNone(db, e, a, item);
        VainSelectsNone(db, e, b, item);
      }
    } else if ProtoAsked(a) == ProtoAsked(b) {
      forall db: Database, item: string ensures Selected(db, e, a, item) <==> Selected(db, e, b, item) {
        if Selected(db, e, a, item) {
          SelectsMore(db, e, a, b, item);
        }
        if Selected(db, e, b, item) {
          SelectsMore(db, e, b, a, item);
        }
      }
    } else if values :| values in ProtoAsked(a) && values !in ProtoAsked(b) {
      var f :| f in a && f.name == Proto && ValueSet(f) == values;
      ProtoShows(e, a, b, f);
    } else {
      var values :| values in ProtoAsked(b) && values !in ProtoAsked(a);
      var f :| f in b && f.name == Proto && ValueSet(f) == values;
      assert AsksInVain(b) ==> AsksInVain(a);
      ProtoShows(e, b, a, f);
      AlikeBack(e, a, b);
    }
  }

  lemma AlikeBack(e: Entity, a: seq<Filter>, b: seq<Filter>)
    ensures SelectAlike(e, a, b) <==> SelectAlike(e, b, a)
  {
  }

  // Two bodies, one of them with a field named `__proto__` besides, and a table with one user in the state.

  const InState := Prop("state", JArr(Item(JStr("s"), End)), Empty)
  const InStateAndProto := Prop("state", JArr(Item(JStr("s"), End)), Prop(Proto, JArr(Item(JStr("x"), End)), Empty))
  const OneUser := Database([], ["u"], [ValueRow("u", "f", ["s"])], [FieldRow("f", "state", None)])

  lemma ProtoEntries()
    ensures IsFilter(InState) && IsFilter(InStateAndProto)
    ensures Entries(InState) == [Filter("state", ["s"])]
    ensures Entries(InStateAndProto) == [Filter("state", ["s"]), Filter(Proto, ["x"])]
  {
    var proto := Prop(Proto, JArr(Item(JStr("x"), End)), Empty);
    assert Strings(Item(JStr("s"), End)) == ["s"] && Strings(Item(JStr("x"), End)) == ["x"];
    assert IsFilter(proto) && Entries(proto) == [Filter(Proto, ["x"])];
  }

  lemma ProtoSelects()
    ensures Selected(OneUser, USERS, [Filter("state", ["s"])], "u")
    ensures !Selected(OneUser, USERS, [Filter("state", ["s"]), Filter(Proto, ["x"])], "u")
  {
    var state, proto := Filter("state", ["s"]), Filter(Proto, ["x"]);
    var v, f := ValueRow("u", "f", ["s"]), FieldRow("f", "state", None);
    assert "s" in state.values && "s" in v.values;
    assert v in OneUser.values && f in OneUser.fields && Witness("u", v, f, state, USERS);
    assert Proto[0] == '_' && f.name[0] == 's';
    assert !Satisfies(OneUser, "u", proto, USERS);
    assert proto in [state, proto];
  }

  /** With a `__proto__` field besides, the cache key is that of the search without it, and the answer is another. */
  lemma ProtoFieldIsNotHashed(digest: string -> string)
    ensures IsFilter(InState) && IsFilter(InStateAndProto)
    ensures FilterKey(digest, USERS, InStateAndProto) == FilterKey(digest, USERS, InState)
    ensures Selected(OneUser, USERS, Entries(InState), "u") && !Selected(OneUser, USERS, Entries(InStateAndProto), "u")
  {
    ProtoEntries();
    ProtoSelects();
    var proto := Prop(Proto, JArr(Item(JStr("x"), End)), Empty);
    assert StripProps(proto) == Empty;
    assert Distinct(proto) && Distinct(InState) && Distinct(InStateAndProto);
    assert Strip(JObj(InStateAndProto)) == Strip(JObj(InState));
    SortsAlikeIff(JObj(InStateAndProto), JObj(InState));
  }
}
