/**
 Searching cohorts or users by custom fields: one chain of joins with numbered placeholders in
 place of one EXISTS per field. The two say the same, in whatever order the fields come, so one
 cached answer serves every request that lists the same fields.
 */
module FieldFilter {
  import opened JsValues
  import opened Lists
  import opened CacheKeyUtil

  datatype FieldRow = FieldRow(fieldId: string, name: string, context: Option<string>)

  datatype ValueRow = ValueRow(itemId: string, fieldId: string, values: seq<string>)

  datatype Database = Database(cohorts: seq<string>, users: seq<string>, values: seq<ValueRow>, fields: seq<FieldRow>)

  datatype Entity = COHORT | USERS

  function Text(e: Entity): string {
    if e == COHORT then "COHORT" else "USERS"
  }

  function Items(db: Database, e: Entity): seq<string> {
    if e == COHORT then db.cohorts else db.users
  }

  /** One field of the request, with the values asked for: a single value counts as a list of one. */
  datatype Filter = Filter(name: string, values: seq<string>)

  // ---------------------------------------------------------------- the query and its placeholders

  /** One pair of joins, with the numbers of its placeholders. */
  datatype Join = Join(valueParams: seq<nat>, nameParam: nat, contextParam: nat)

  datatype Query = Query(entity: Entity, joins: seq<Join>, params: seq<string>)

  /** Placeholder `$n` stands for `x`. */
  predicate Names(params: seq<string>, n: nat, x: string) {
    1 <= n <= |params| && params[n - 1] == x
  }

  predicate NamesAll(params: seq<string>, ns: seq<nat>, xs: seq<string>) {
    |ns| == |xs| && forall k :: 0 <= k < |ns| ==> Names(params, ns[k], xs[k])
  }

  /** The join's placeholders stand for the values, the name and the context they are meant for. */
  predicate Bound(params: seq<string>, j: Join, f: Filter, e: Entity) {
    NamesAll(params, j.valueParams, f.values) && Names(params, j.nameParam, f.name)
      && Names(params, j.contextParam, Text(e))
  }

  predicate Fits(q: Query, filters: seq<Filter>) {
    |q.joins| == |filters| && forall i :: 0 <= i < |filters| ==> Bound(q.params, q.joins[i], filters[i], q.entity)
  }

  method BuildQuery(entity: Entity, filters: seq<Filter>) returns (q: Query)
    ensures q.entity == entity && Fits(q, filters)
  {
    var joins: seq<Join>, params: seq<string>, paramIndex := [], [], 1;
    for i := 0 to |filters|
      invariant paramIndex == |params| + 1
      invariant Fits(Query(entity, joins, params), filters[..i])
    {
      var f := filters[i];
      var valueParams: seq<nat> := [];
      ghost var before := params;
      for k := 0 to |f.values|
        invariant paramIndex == |params| + 1 + k
        invariant |valueParams| == k && forall m :: 0 <= m < k ==> valueParams[m] == |params| + 1 + m
      {
        valueParams := valueParams + [paramIndex];
        paramIndex := paramIndex + 1;
      }
      params := params + f.values;
      params := params + [f.name, Text(entity)];
      var nameParam := paramIndex;
      var contextParam := paramIndex + 1;
      paramIndex := paramIndex + 2;
      var join := Join(valueParams, nameParam, contextParam);
      joins := joins + [join];
      assert filters[..i + 1] == filters[..i] + [f];
    }
    assert filters[..|filters|] == filters;
    q := Query(entity, joins, params);
  }

  // ---------------------------------------------------------------- what the query means

  predicate Overlaps(row: ValueRow, params: seq<string>, ns: seq<nat>) {
    exists k :: 0 <= k < |ns| && 1 <= ns[k] <= |params| && params[ns[k] - 1] in row.values
  }

  /** `context IN ($n, 'NULL', 'null', '') OR context IS NULL`. */
  predicate ContextFits(field: FieldRow, context: string) {
    field.context == None || field.context.value in [context, "NULL", "null", ""]
  }

  /** The two ON conditions of one pair of joins. */
  predicate On(item: string, v: ValueRow, f: FieldRow, j: Join, params: seq<string>) {
    && v.itemId == item && Overlaps(v, params, j.valueParams)
    && f.fieldId == v.fieldId && Names(params, j.nameParam, f.name)
    && 1 <= j.contextParam <= |params| && ContextFits(f, params[j.contextParam - 1])
  }

  function FieldMatches(item: string, v: ValueRow, fields: seq<FieldRow>, j: Join, params: seq<string>): nat {
    if fields == [] then 0
    else (if On(item, v, fields[0], j, params) then 1 else 0) + FieldMatches(item, v, fields[1..], j, params)
  }

  /** How many pairs of a value row and a field row join to the item. */
  function Matches(item: string, values: seq<ValueRow>, fields: seq<FieldRow>, j: Join, params: seq<string>): nat {
    if values == [] then 0
    else FieldMatches(item, values[0], fields, j, params) + Matches(item, values[1..], fields, j, params)
  }

  function Copies(item: string, n: nat): seq<string> {
    if n == 0 then [] else [item] + Copies(item, n - 1)
  }

  /** One pair of joins: every row once for each match. */
  function JoinOne(rows: seq<string>, db: Database, j: Join, params: seq<string>): seq<string> {
    if rows == [] then []
    else Copies(rows[0], Matches(rows[0], db.values, db.fields, j, params)) + JoinOne(rows[1..], db, j, params)
  }

  function JoinAll(rows: seq<string>, db: Database, joins: seq<Join>, params: seq<string>): seq<string>
    decreases |joins|
  {
    if joins == [] then rows else JoinAll(JoinOne(rows, db, joins[0], params), db, joins[1..], params)
  }

  datatype Answer = SqlError | Nothing | Found(ids: seq<string>)

  /** SELECT DISTINCT over the chain of joins; an empty ARRAY[] has no type and is an error; no rows answer null. */
  function Execute(db: Database, q: Query): Answer {
    if exists i :: 0 <= i < |q.joins| && q.joins[i].valueParams == [] then SqlError
    else
      var ids := Unique(JoinAll(Items(db, q.entity), db, q.joins, q.params));
      if ids == [] then Nothing else Found(ids)
  }

  method FilterUserUsingCustomFieldsUncached(db: Database, entity: Entity, filters: seq<Filter>) returns (r: Answer)
    ensures r.SqlError? <==> exists i :: 0 <= i < |filters| && filters[i].values == []
    ensures !r.SqlError? ==> forall item :: item in Ids(r) <==> Selected(db, entity, filters, item)
    ensures r.Found? ==> r.ids != [] && forall i, j :: 0 <= i < j < |r.ids| ==> r.ids[i] != r.ids[j]
  {
    var q := BuildQuery(entity, filters);
    JoinsAreExists(db, q, filters);
    r := Execute(db, q);
    assert forall i :: 0 <= i < |filters| ==> |q.joins[i].valueParams| == |filters[i].values|;
  }

  function Ids(r: Answer): seq<string> {
    if r.Found? then r.ids else []
  }

  // ---------------------------------------------------------------- the EXISTS form

  /** A value the item has of the field, one of those asked for; the field is the entity's or nobody's in particular. */
  predicate Witness(item: string, v: ValueRow, f: FieldRow, filter: Filter, e: Entity) {
    && v.itemId == item && (exists x :: x in filter.values && x in v.values)
    && f.fieldId == v.fieldId && f.name == filter.name
    && (f.context.Some? && f.context.value !in ["NULL", "null", ""] ==>
          match e case COHORT => f.context.value == "COHORT" case USERS => f.context.value == "USERS")
  }

  /** The item has a value of the field among those asked for. */
  predicate Satisfies(db: Database, item: string, filter: Filter, e: Entity) {
    exists v, f :: v in db.values && f in db.fields && Witness(item, v, f, filter, e)
  }

  predicate Selected(db: Database, e: Entity, filters: seq<Filter>, item: string) {
    && (match e case COHORT => item in db.cohorts case USERS => item in db.users)
    && forall filter :: filter in filters ==> Satisfies(db, item, filter, e)
  }

  lemma {:induction false} FieldMatchesIff(item: string, v: ValueRow, fields: seq<FieldRow>, j: Join,
                                           params: seq<string>)
    ensures FieldMatches(item, v, fields, j, params) > 0 <==> exists f :: f in fields && On(item, v, f, j, params)
  {
    if fields != [] {
      FieldMatchesIff(item, v, fields[1..], j, params);
      assert forall f :: f in fields <==> f == fields[0] || f in fields[1..];
    }
  }

  lemma {:induction false} MatchesIff(item: string, values: seq<ValueRow>, fields: seq<FieldRow>, j: Join,
                                      params: seq<string>)
    ensures Matches(item, values, fields, j, params) > 0
      <==> exists v, f :: v in values && f in fields && On(item, v, f, j, params)
  {
    if values != [] {
      FieldMatchesIff(item, values[0], fields, j, params);
      MatchesIff(item, values[1..], fields, j, params);
      assert forall v :: v in values <==> v == values[0] || v in values[1..];
    }
  }

  lemma MatchesSatisfies(db: Database, item: string, j: Join, params: seq<string>, filter: Filter, e: Entity)
    requires Bound(params, j, filter, e)
    ensures Matches(item, db.values, db.fields, j, params) > 0 <==> Satisfies(db, item, filter, e)
  {
    MatchesIff(item, db.values, db.fields, j, params);
    forall v, f ensures On(item, v, f, j, params) <==> Witness(item, v, f, filter, e) {
    }
  }

  lemma {:induction false} InCopies(item: string, n: nat, x: string)
    ensures x in Copies(item, n) <==> n > 0 && x == item
  {
    if n > 0 {
      InCopies(item, n - 1, x);
    }
  }

  lemma {:induction false} JoinOneKeeps(rows: seq<string>, db: Database, j: Join, params: seq<string>, x: string)
    ensures x in JoinOne(rows, db, j, params) <==> x in rows && Matches(x, db.values, db.fields, j, params) > 0
  {
    if rows != [] {
      var n := Matches(rows[0], db.values, db.fields, j, params);
      InCopies(rows[0], n, x);
      JoinOneKeeps(rows[1..], db, j, params, x);
      assert x in rows <==> x == rows[0] || x in rows[1..];
    }
  }

  lemma {:induction false} JoinAllKeeps(rows: seq<string>, db: Database, q: Query, filters: seq<Filter>, x: string)
    requires Fits(q, filters)
    ensures x in JoinAll(rows, db, q.joins, q.params)
      <==> x in rows && forall f :: f in filters ==> Satisfies(db, x, f, q.entity)
    decreases |filters|
  {
    if filters != [] {
      var rest := Query(q.entity, q.joins[1..], q.params);
      JoinOneKeeps(rows, db, q.joins[0], q.params, x);
      MatchesSatisfies(db, x, q.joins[0], q.params, filters[0], q.entity);
      forall i | 0 <= i < |filters| - 1 ensures Bound(q.params, rest.joins[i], filters[1..][i], q.entity) {
        assert Bound(q.params, q.joins[i + 1], filters[i + 1], q.entity);
      }
      JoinAllKeeps(JoinOne(rows, db, q.joins[0], q.params), db, rest, filters[1..], x);
      assert forall f :: f in filters <==> f == filters[0] || f in filters[1..];
    }
  }

  /** DISTINCT over the chain of joins is the set of items for which every field EXISTS with a value asked for. */
  lemma JoinsAreExists(db: Database, q: Query, filters: seq<Filter>)
    requires Fits(q, filters)
    ensures !Execute(db, q).SqlError? ==>
      forall item :: item in Ids(Execute(db, q)) <==> Selected(db, q.entity, filters, item)
  {
    var rows := JoinAll(Items(db, q.entity), db, q.joins, q.params);
    forall item ensures item in Unique(rows) <==> Selected(db, q.entity, filters, item) {
      JoinAllKeeps(Items(db, q.entity), db, q, filters, item);
      assert item in Unique(rows) <==> item in Elements(Unique(rows));
      assert item in rows <==> item in Elements(rows);
    }
  }

  // ---------------------------------------------------------------- one cached answer for all orders

  /** Which items are selected depends on the fields listed and not on their order. */
  lemma OrderDoesNotMatter(db: Database, e: Entity, a: seq<Filter>, b: seq<Filter>)
    requires forall f :: f in a <==> f in b
    ensures forall item :: Selected(db, e, a, item) <==> Selected(db, e, b, item)
  {
  }

  /** The request body as JSON: each field with one string or a list of strings. */
  predicate IsFilter(props: Props) {
    props.Empty? || ((props.value.JStr? || (props.value.JArr? && AllStrings(props.value.items)))
      && IsFilter(props.rest))
  }

  lemma {:induction false} StringsAreDefined(items: CacheKeyUtil.Items)
    requires AllStrings(items)
    ensures ItemsDefined(items)
  {
    if items.Item? {
      StringsAreDefined(items.tail);
    }
  }

  lemma {:induction false} FilterIsDefined(props: Props)
    requires IsFilter(props)
    ensures PropsDefined(props)
  {
    if props.Prop? {
      if props.value.JArr? {
        StringsAreDefined(props.value.items);
      }
      FilterIsDefined(props.rest);
    }
  }

  predicate AllStrings(items: CacheKeyUtil.Items) {
    items.End? || (items.head.JStr? && AllStrings(items.tail))
  }

  function Strings(items: CacheKeyUtil.Items): seq<string>
    requires AllStrings(items)
  {
    if items.End? then [] else [items.head.s] + Strings(items.tail)
  }

  /** `Object.entries` of the body, a single value taken as a list of one. */
  function Entries(props: Props): seq<Filter>
    requires IsFilter(props)
  {
    if props.Empty? then []
    else
      [Filter(props.name, if props.value.JStr? then [props.value.s] else Strings(props.value.items))]
      + Entries(props.rest)
  }

  function MeantStrings(items: seq<Meaning>): seq<string> {
    if items == [] then [] else (if items[0].MStr? then [items[0].s] else []) + MeantStrings(items[1..])
  }

  function MeantValues(m: Meaning): seq<string> {
    match m
    case MStr(s) => [s]
    case MArr(items) => MeantStrings(items)
    case _ => []
  }

  lemma {:induction false} StringsMeant(items: CacheKeyUtil.Items)
    requires AllStrings(items)
    ensures Strings(items) == MeantStrings(ItemsMeaning(items))
  {
    if items.Item? {
      StringsMeant(items.tail);
      assert ItemsMeaning(items)[1..] == ItemsMeaning(items.tail);
    }
  }

  /** The entries are what the body says, as an unordered collection. */
  lemma {:induction false} EntriesMeant(props: Props, f: Filter)
    requires IsFilter(props) && Distinct(props)
    ensures f in Entries(props)
      <==> f.name in PropsMeaning(props) && f.values == MeantValues(PropsMeaning(props)[f.name])
  {
    if props.Prop? {
      EntriesMeant(props.rest, f);
      MeansByName(props.rest);
      if props.value.JArr? {
        StringsMeant(props.value.items);
      }
      var first := Entries(props)[0];
      assert f in Entries(props) <==> f == first || f in Entries(props.rest);
    }
  }

  /** The sub-key under which an answer is cached, with the digest in hexadecimal. */
  function FilterKey(digest: string -> string, e: Entity, props: Props): string {
    Text(e) + ":" + HashCacheKey(digest, JObj(props))
  }

  lemma SameKeySameEntries(digest: string -> string, d: Entity, a: Props, e: Entity, b: Props)
    requires Injective(digest) && IsFilter(a) && IsFilter(b)
    requires WellFormed(JObj(a)) && WellFormed(JObj(b)) && ProtoFree(JObj(a)) && ProtoFree(JObj(b))
    requires FilterKey(digest, d, a) == FilterKey(digest, e, b)
    ensures d == e && forall f :: f in Entries(a) <==> f in Entries(b)
  {
    var h, g := HashCacheKey(digest, JObj(a)), HashCacheKey(digest, JObj(b));
    assert (Text(d) + ":" + h)[0] == Text(d)[0] && (Text(e) + ":" + g)[0] == Text(e)[0];
    assert (Text(d) + ":" + h)[|Text(d)| + 1..] == h && (Text(e) + ":" + g)[|Text(e)| + 1..] == g;
    FilterIsDefined(a);
    FilterIsDefined(b);
    SameKeyIffSameRequest(digest, JObj(a), JObj(b));
    forall f ensures f in Entries(a) <==> f in Entries(b) {
      EntriesMeant(a, f);
      EntriesMeant(b, f);
    }
  }

  /**
   Two searches with one cache key select the same items, so each may be given the other's answer:
   the order of the fields changes neither the key nor the answer.
   */
  lemma SharedAnswerIsRight(digest: string -> string, db: Database, d: Entity, a: Props, e: Entity, b: Props)
    requires Injective(digest) && IsFilter(a) && IsFilter(b)
    requires WellFormed(JObj(a)) && WellFormed(JObj(b)) && ProtoFree(JObj(a)) && ProtoFree(JObj(b))
    requires FilterKey(digest, d, a) == FilterKey(digest, e, b)
    ensures d == e && forall item :: Selected(db, d, Entries(a), item) <==> Selected(db, e, Entries(b), item)
  {
    SameKeySameEntries(digest, d, a, e, b);
    OrderDoesNotMatter(db, d, Entries(a), Entries(b));
  }
}
