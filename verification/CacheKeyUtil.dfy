/**
 Canonical request keys: sort the properties of a value at every depth, print it as JSON, hash the
 text. Two requests get one key exactly when they say the same, with one exception that comes from
 how a property named `__proto__` is assigned; a member that is undefined says nothing.
 */
module CacheKeyUtil {
  import opened EntryKeys

  /**
   A JSON value with its properties in the order the engine enumerates them, and with the members
   that are undefined, which JSON has no text for; a number is its printed form.
   */
  datatype Json =
    | JUndef
    | JNull
    | JBool(b: bool)
    | JNum(text: string)
    | JStr(s: string)
    | JArr(items: Items)
    | JObj(props: Props)

  datatype Items = End | Item(head: Json, tail: Items)

  datatype Props = Empty | Prop(name: string, value: Json, rest: Props)

  /** What a JSON value says: an object is an unordered collection of names and values. */
  datatype Meaning =
    | MUndef
    | MNull
    | MBool(b: bool)
    | MNum(text: string)
    | MStr(s: string)
    | MArr(items: seq<Meaning>)
    | MObj(props: map<string, Meaning>)

  function MeaningOf(v: Json): Meaning {
    match v
    case JUndef => MUndef
    case JNull => MNull
    case JBool(b) => MBool(b)
    case JNum(text) => MNum(text)
    case JStr(s) => MStr(s)
    case JArr(items) => MArr(ItemsMeaning(items))
    case JObj(props) => MObj(PropsMeaning(props))
  }

  function ItemsMeaning(items: Items): seq<Meaning> {
    match items
    case End => []
    case Item(head, tail) => [MeaningOf(head)] + ItemsMeaning(tail)
  }

  function PropsMeaning(props: Props): map<string, Meaning> {
    match props
    case Empty => map[]
    case Prop(name, value, rest) => PropsMeaning(rest)[name := MeaningOf(value)]
  }

  function Names(props: Props): seq<string> {
    match props
    case Empty => []
    case Prop(name, _, rest) => [name] + Names(rest)
  }

  function Lookup(props: Props, name: string): Json
    requires name in Names(props)
  {
    if props.name == name then props.value else Lookup(props.rest, name)
  }

  // ---------------------------------------------------------------- the two orders of names

  /** The order of UTF-16 code units, which `sort()` uses: characters beyond the basic plane come before U+E000. */
  function Rank(c: char): int {
    var n := c as int;
    if n < 0xD800 then n else if n >= 0x10000 then 0xD800 + (n - 0x10000) else n + 0x100000
  }

  predicate UnitLess(a: string, b: string) {
    b != [] && (a == [] || Rank(a[0]) < Rank(b[0]) || (a[0] == b[0] && UnitLess(a[1..], b[1..])))
  }

  /** Array indices are enumerated first, in numeric order, whenever they were added. */
  predicate IsIndex(name: string) {
    AllDigits(name) && Decimal(DecimalValue(name)) == name && DecimalValue(name) < 0xFFFF_FFFF
  }

  predicate EnumLess(a: string, b: string) {
    if IsIndex(a) && IsIndex(b) then DecimalValue(a) < DecimalValue(b)
    else if IsIndex(a) || IsIndex(b) then IsIndex(a)
    else UnitLess(a, b)
  }

  lemma {:induction false} UnitTotal(a: string, b: string)
    ensures UnitLess(a, b) || a == b || UnitLess(b, a)
    ensures !(UnitLess(a, b) && (a == b || UnitLess(b, a)))
  {
    if a != [] && b != [] {
      UnitTotal(a[1..], b[1..]);
      assert a == [a[0]] + a[1..] && b == [b[0]] + b[1..];
    }
  }

  lemma {:induction false} UnitTransitive(a: string, b: string, c: string)
    requires UnitLess(a, b) && UnitLess(b, c)
    ensures UnitLess(a, c)
  {
    if a != [] && a[0] == b[0] == c[0] {
      UnitTransitive(a[1..], b[1..], c[1..]);
    }
  }

  lemma EnumTotal(a: string, b: string)
    ensures EnumLess(a, b) || a == b || EnumLess(b, a)
    ensures !(EnumLess(a, b) && (a == b || EnumLess(b, a)))
  {
    UnitTotal(a, b);
  }

  lemma EnumTransitive(a: string, b: string, c: string)
    requires EnumLess(a, b) && EnumLess(b, c)
    ensures EnumLess(a, c)
  {
    if !IsIndex(a) {
      UnitTransitive(a, b, c);
    }
  }

  // ---------------------------------------------------------------- sortValue

  function Insert(key: string, keys: seq<string>): seq<string> {
    if keys == [] || UnitLess(key, keys[0]) then [key] + keys else [keys[0]] + Insert(key, keys[1..])
  }

  /** `Object.keys(value).sort()`. */
  function SortKeys(keys: seq<string>): seq<string> {
    if keys == [] then [] else Insert(keys[0], SortKeys(keys[1..]))
  }

  const Proto := "__proto__"

  /**
   `acc[key] = value` on an ordinary object. Assigning to `__proto__` goes to the prototype and adds no
   property; an array index is put where enumeration will find it; any other new name goes last.
   */
  function Put(acc: Props, key: string, value: Json): Props {
    if key == Proto then acc
    else match acc
      case Empty => Prop(key, value, Empty)
      case Prop(name, before, rest) =>
        if name == key then Prop(name, value, rest)
        else if IsIndex(key) && (!IsIndex(name) || DecimalValue(key) < DecimalValue(name)) then Prop(key, value, acc)
        else Prop(name, before, Put(rest, key, value))
  }

  function Reduce(keys: seq<string>, values: Props, acc: Props): Props
    requires forall k :: k in keys ==> k in Names(values)
    decreases |keys|
  {
    if keys == [] then acc else Reduce(keys[1..], values, Put(acc, keys[0], Lookup(values, keys[0])))
  }

  function SortValue(v: Json): Json {
    match v
    case JArr(items) => JArr(SortItems(items))
    case JObj(props) =>
      var values := SortEach(props);
      SortKeysKeep(Names(values));
      JObj(Reduce(SortKeys(Names(values)), values, Empty))
    case _ => v
  }

  function SortItems(items: Items): Items {
    match items
    case End => End
    case Item(head, tail) => Item(SortValue(head), SortItems(tail))
  }

  function SortEach(props: Props): Props {
    match props
    case Empty => Empty
    case Prop(name, value, rest) => Prop(name, SortValue(value), SortEach(rest))
  }

  lemma {:induction false} InsertKeeps(key: string, keys: seq<string>)
    ensures forall k :: k in Insert(key, keys) <==> k == key || k in keys
  {
    if keys != [] {
      InsertKeeps(key, keys[1..]);
    }
  }

  lemma {:induction false} SortKeysKeep(keys: seq<string>)
    ensures forall k :: k in SortKeys(keys) <==> k in keys
  {
    if keys != [] {
      SortKeysKeep(keys[1..]);
      InsertKeeps(keys[0], SortKeys(keys[1..]));
    }
  }

  // ---------------------------------------------------------------- values as JSON has them

  predicate Distinct(props: Props) {
    props.Empty? || (props.name !in Names(props.rest) && Distinct(props.rest))
  }

  predicate NumberChar(c: char) {
    IsDigit(c) || c in "+-.e"
  }

  predicate NumberText(text: string) {
    text != [] && (IsDigit(text[0]) || text[0] == '-') && forall i :: 0 <= i < |text| ==> NumberChar(text[i])
  }

  /** Names are distinct within an object and numbers are printed as numbers, at every depth. */
  predicate WellFormed(v: Json) {
    match v
    case JNum(text) => NumberText(text)
    case JArr(items) => ItemsWellFormed(items)
    case JObj(props) => Distinct(props) && PropsWellFormed(props)
    case _ => true
  }

  predicate ItemsWellFormed(items: Items) {
    items.End? || (WellFormed(items.head) && ItemsWellFormed(items.tail))
  }

  predicate PropsWellFormed(props: Props) {
    props.Empty? || (WellFormed(props.value) && PropsWellFormed(props.rest))
  }

  /** The value without its `__proto__` properties, at every depth. */
  function Strip(v: Json): Json {
    match v
    case JArr(items) => JArr(StripItems(items))
    case JObj(props) => JObj(StripProps(props))
    case _ => v
  }

  function StripItems(items: Items): Items {
    match items
    case End => End
    case Item(head, tail) => Item(Strip(head), StripItems(tail))
  }

  function StripProps(props: Props): Props {
    match props
    case Empty => Empty
    case Prop(name, value, rest) =>
      if name == Proto then StripProps(rest) else Prop(name, Strip(value), StripProps(rest))
  }

  // ---------------------------------------------------------------- the result is sorted

  predicate Ascending(props: Props) {
    props.Empty? || ((forall n :: n in Names(props.rest) ==> EnumLess(props.name, n)) && Ascending(props.rest))
  }

  /** Properties in enumeration order and none of them `__proto__`, at every depth. */
  predicate Canonical(v: Json) {
    match v
    case JNum(text) => NumberText(text)
    case JArr(items) => ItemsCanonical(items)
    case JObj(props) => Ascending(props) && Proto !in Names(props) && PropsCanonical(props)
    case _ => true
  }

  predicate ItemsCanonical(items: Items) {
    items.End? || (Canonical(items.head) && ItemsCanonical(items.tail))
  }

  predicate PropsCanonical(props: Props) {
    props.Empty? || (Canonical(props.value) && PropsCanonical(props.rest))
  }

  predicate UnitSorted(keys: seq<string>) {
    keys == [] || ((forall k :: k in keys[1..] ==> UnitLess(keys[0], k)) && UnitSorted(keys[1..]))
  }

  predicate NoRepeats(keys: seq<string>) {
    keys == [] || (keys[0] !in keys[1..] && NoRepeats(keys[1..]))
  }

  lemma {:induction false} InsertSorts(key: string, keys: seq<string>)
    requires UnitSorted(keys) && key !in keys
    ensures UnitSorted(Insert(key, keys))
  {
    if keys == [] || UnitLess(key, keys[0]) {
      var r := [key] + keys;
      assert r[1..] == keys;
      forall k | k in keys ensures UnitLess(key, k) {
        if k != keys[0] {
          assert k in keys[1..];
          UnitTransitive(key, keys[0], k);
        }
      }
    } else {
      InsertSorts(key, keys[1..]);
      InsertKeeps(key, keys[1..]);
      UnitTotal(key, keys[0]);
      var r := [keys[0]] + Insert(key, keys[1..]);
      assert r[1..] == Insert(key, keys[1..]);
    }
  }

  lemma {:induction false} SortKeysSorts(keys: seq<string>)
    requires NoRepeats(keys)
    ensures UnitSorted(SortKeys(keys))
  {
    if keys != [] {
      SortKeysSorts(keys[1..]);
      SortKeysKeep(keys[1..]);
      InsertSorts(keys[0], SortKeys(keys[1..]));
    }
  }

  lemma {:induction false} DistinctNames(props: Props)
    requires Distinct(props)
    ensures NoRepeats(Names(props))
  {
    if props.Prop? {
      DistinctNames(props.rest);
      assert Names(props)[1..] == Names(props.rest);
    }
  }

  /** A new key goes after the names added so far, unless it is an index. */
  predicate Follows(key: string, acc: Props) {
    key !in Names(acc) && forall n :: n in Names(acc) && !IsIndex(n) ==> UnitLess(n, key)
  }

  lemma {:induction false} PutNames(acc: Props, key: string, value: Json)
    requires key != Proto
    ensures forall n :: n in Names(Put(acc, key, value)) <==> n == key || n in Names(acc)
  {
    if acc.Prop? {
      PutNames(acc.rest, key, value);
    }
  }

  lemma {:induction false} PutAscends(acc: Props, key: string, value: Json)
    requires key != Proto && Ascending(acc) && Follows(key, acc)
    requires PropsCanonical(acc) && Canonical(value)
    ensures Ascending(Put(acc, key, value)) && PropsCanonical(Put(acc, key, value))
  {
    if acc.Prop? {
      if IsIndex(key) && (!IsIndex(acc.name) || DecimalValue(key) < DecimalValue(acc.name)) {
        assert EnumLess(key, acc.name);
        forall n | n in Names(acc.rest) ensures EnumLess(key, n) {
          EnumTransitive(key, acc.name, n);
        }
      } else {
        assert acc.name in Names(acc);
        assert forall n :: n in Names(acc.rest) ==> n in Names(acc);
        PutAscends(acc.rest, key, value);
        PutNames(acc.rest, key, value);
        EnumTotal(acc.name, key);
        assert EnumLess(acc.name, key) by {
          if IsIndex(key) && IsIndex(acc.name) {
            assert DecimalValue(acc.name) != DecimalValue(key);
          }
        }
      }
    }
  }

  lemma {:induction false} PutMeans(acc: Props, key: string, value: Json)
    requires key != Proto && key !in Names(acc)
    ensures PropsMeaning(Put(acc, key, value)) == PropsMeaning(acc)[key := MeaningOf(value)]
  {
    if acc.Prop? {
      assert acc.name in Names(acc);
      PutMeans(acc.rest, key, value);
    }
  }

  // ---------------------------------------------------------------- what sorting does to a value

  lemma {:induction false} MeansByName(props: Props)
    ensures forall n :: n in PropsMeaning(props) <==> n in Names(props)
    ensures forall n :: n in Names(props) ==> PropsMeaning(props)[n] == MeaningOf(Lookup(props, n))
  {
    if props.Prop? {
      MeansByName(props.rest);
    }
  }

  lemma {:induction false} CanonicalByName(props: Props, name: string)
    requires PropsCanonical(props) && name in Names(props)
    ensures Canonical(Lookup(props, name))
  {
    if props.name != name {
      CanonicalByName(props.rest, name);
    }
  }

  /** The keys still to be added come after those added so far. */
  predicate AllFollow(keys: seq<string>, acc: Props) {
    forall k :: k in keys ==> Follows(k, acc)
  }

  /** The named entries of a meaning, but for `__proto__`. */
  function Picked(keys: seq<string>, from: map<string, Meaning>): map<string, Meaning> {
    map k | k in keys && k in from && k != Proto :: from[k]
  }

  lemma PickStep(keys: seq<string>, from: map<string, Meaning>, before: map<string, Meaning>)
    requires keys != [] && keys[0] in from
    ensures before + Picked(keys, from)
         == (if keys[0] == Proto then before else before[keys[0] := from[keys[0]]]) + Picked(keys[1..], from)
  {
  }

  /** `Reduce` rebuilds exactly the named properties, in enumeration order, but for `__proto__`. */
  lemma {:induction false} ReduceIs(keys: seq<string>, values: Props, acc: Props)
    requires forall k :: k in keys ==> k in Names(values)
    requires UnitSorted(keys) && AllFollow(keys, acc) && PropsCanonical(values)
    requires Ascending(acc) && PropsCanonical(acc) && Proto !in Names(acc)
    ensures Canonical(JObj(Reduce(keys, values, acc)))
    ensures PropsMeaning(Reduce(keys, values, acc)) == PropsMeaning(acc) + Picked(keys, PropsMeaning(values))
    decreases |keys|
  {
    if keys != [] {
      var next := Put(acc, keys[0], Lookup(values, keys[0]));
      PutIs(keys, values, acc);
      ReduceIs(keys[1..], values, next);
      PickStep(keys, PropsMeaning(values), PropsMeaning(acc));
    }
  }

  lemma PutIs(keys: seq<string>, values: Props, acc: Props)
    requires keys != [] && keys[0] in Names(values)
    requires UnitSorted(keys) && AllFollow(keys, acc) && PropsCanonical(values)
    requires Ascending(acc) && PropsCanonical(acc) && Proto !in Names(acc)
    ensures keys[0] in PropsMeaning(values)
    ensures var next := Put(acc, keys[0], Lookup(values, keys[0]));
      && Ascending(next) && PropsCanonical(next) && Proto !in Names(next) && AllFollow(keys[1..], next)
      && PropsMeaning(next)
         == if keys[0] == Proto then PropsMeaning(acc) else PropsMeaning(acc)[keys[0] := PropsMeaning(values)[keys[0]]]
  {
    var key, value := keys[0], Lookup(values, keys[0]);
    MeansByName(values);
    assert Follows(key, acc);
    if key != Proto {
      CanonicalByName(values, key);
      PutAscends(acc, key, value);
      PutNames(acc, key, value);
      PutMeans(acc, key, value);
    }
    StillFollow(keys, acc, Put(acc, key, value));
  }

  lemma StillFollow(keys: seq<string>, acc: Props, next: Props)
    requires keys != [] && UnitSorted(keys) && AllFollow(keys, acc)
    requires forall n :: n in Names(next) ==> n == keys[0] || n in Names(acc)
    ensures AllFollow(keys[1..], next)
  {
    forall k | k in keys[1..] ensures Follows(k, next) {
      UnitTotal(keys[0], k);
      assert k in keys;
    }
  }

  lemma {:induction false} SortEachKeepsNames(props: Props)
    ensures Names(SortEach(props)) == Names(props)
  {
    if props.Prop? {
      SortEachKeepsNames(props.rest);
    }
  }

  /** The sorted value is canonical and says what the value says without its `__proto__` properties. */
  lemma {:induction false} SortValueIs(v: Json)
    requires WellFormed(v)
    ensures Canonical(SortValue(v))
    ensures MeaningOf(SortValue(v)) == MeaningOf(Strip(v))
  {
    match v
    case JArr(items) => SortItemsIs(items);
    case JObj(props) =>
      SortEachIs(props);
      SortObjectIs(props);
    case _ =>
  }

  lemma SortObjectIs(props: Props)
    requires Distinct(props) && PropsCanonical(SortEach(props))
    ensures Canonical(SortValue(JObj(props)))
    ensures MeaningOf(SortValue(JObj(props))) == MObj(PropsMeaning(SortEach(props)) - {Proto})
  {
    var values := SortEach(props);
    var keys := SortKeys(Names(values));
    SortEachKeepsNames(props);
    DistinctNames(props);
    SortKeysSorts(Names(values));
    SortKeysKeep(Names(values));
    ReduceIs(keys, values, Empty);
    MeansByName(values);
    PickAll(keys, PropsMeaning(values));
  }

  lemma PickAll(keys: seq<string>, from: map<string, Meaning>)
    requires forall k :: k in from <==> k in keys
    ensures map[] + Picked(keys, from) == from - {Proto}
  {
  }

  lemma {:induction false} SortItemsIs(items: Items)
    requires ItemsWellFormed(items)
    ensures ItemsCanonical(SortItems(items))
    ensures ItemsMeaning(SortItems(items)) == ItemsMeaning(StripItems(items))
  {
    if items.Item? {
      SortValueIs(items.head);
      SortItemsIs(items.tail);
    }
  }

  lemma {:induction false} SortEachIs(props: Props)
    requires PropsWellFormed(props)
    ensures PropsCanonical(SortEach(props))
    ensures PropsMeaning(SortEach(props)) - {Proto} == PropsMeaning(StripProps(props))
  {
    if props.Prop? {
      SortValueIs(props.value);
      SortEachIs(props.rest);
      StripDropsProto(props.rest);
    }
  }

  lemma {:induction false} StripDropsProto(props: Props)
    ensures forall n :: n in PropsMeaning(StripProps(props)) <==> n in Names(props) && n != Proto
  {
    if props.Prop? {
      StripDropsProto(props.rest);
    }
  }

  // ---------------------------------------------------------------- one canonical value per meaning

  lemma {:induction false} CanonicalUnique(a: Json, b: Json)
    requires Canonical(a) && Canonical(b) && MeaningOf(a) == MeaningOf(b)
    ensures a == b
  {
    match a
    case JArr(items) => CanonicalItemsUnique(items, b.items);
    case JObj(props) => CanonicalPropsUnique(props, b.props);
    case _ =>
  }

  lemma {:induction false} CanonicalItemsUnique(a: Items, b: Items)
    requires ItemsCanonical(a) && ItemsCanonical(b) && ItemsMeaning(a) == ItemsMeaning(b)
    ensures a == b
  {
    if a.Item? {
      assert ItemsMeaning(a)[0] == MeaningOf(a.head) && ItemsMeaning(a)[1..] == ItemsMeaning(a.tail);
      assert ItemsMeaning(b)[0] == MeaningOf(b.head) && ItemsMeaning(b)[1..] == ItemsMeaning(b.tail);
      CanonicalUnique(a.head, b.head);
      CanonicalItemsUnique(a.tail, b.tail);
    }
  }

  lemma {:induction false} CanonicalPropsUnique(a: Props, b: Props)
    requires Ascending(a) && PropsCanonical(a) && Ascending(b) && PropsCanonical(b)
    requires PropsMeaning(a) == PropsMeaning(b)
    ensures a == b
  {
    if a.Prop? {
      SameFirst(a, b);
      CanonicalUnique(a.value, b.value);
      CanonicalPropsUnique(a.rest, b.rest);
    } else if b.Prop? {
      SameFirst(b, a);
    }
  }

  lemma SameFirst(a: Props, b: Props)
    requires Ascending(a) && Ascending(b) && PropsMeaning(a) == PropsMeaning(b) && a.Prop?
    ensures b.Prop? && a.name == b.name && MeaningOf(a.value) == MeaningOf(b.value)
    ensures PropsMeaning(a.rest) == PropsMeaning(b.rest)
  {
    MeansByName(a);
    MeansByName(b);
    assert a.name in PropsMeaning(a) && a.name in Names(b);
    assert b.name in PropsMeaning(b) && b.name in Names(a);
    EnumTotal(a.name, b.name);
    RestOf(a);
    RestOf(b);
    assert PropsMeaning(a)[a.name] == MeaningOf(a.value);
  }

  lemma RestOf(props: Props)
    requires props.Prop? && Ascending(props)
    ensures PropsMeaning(props.rest) == PropsMeaning(props) - {props.name}
  {
    EnumTotal(props.name, props.name);
    MeansByName(props.rest);
  }

  /** Two values sort to one value exactly when they say the same, `__proto__` properties aside. */
  lemma SortsAlikeIff(a: Json, b: Json)
    requires WellFormed(a) && WellFormed(b)
    ensures SortValue(a) == SortValue(b) <==> MeaningOf(Strip(a)) == MeaningOf(Strip(b))
  {
    SortValueIs(a);
    SortValueIs(b);
    if MeaningOf(Strip(a)) == MeaningOf(Strip(b)) {
      CanonicalUnique(SortValue(a), SortValue(b));
    }
  }

  /** A canonical value has distinct names, and none of them is `__proto__`. */
  lemma {:induction false} CanonicalWellFormed(v: Json)
    requires Canonical(v)
    ensures WellFormed(v) && Strip(v) == v
  {
    match v
    case JArr(items) => CanonicalItemsWellFormed(items);
    case JObj(props) => CanonicalPropsWellFormed(props);
    case _ =>
  }

  lemma {:induction false} CanonicalItemsWellFormed(items: Items)
    requires ItemsCanonical(items)
    ensures ItemsWellFormed(items) && StripItems(items) == items
  {
    if items.Item? {
      CanonicalWellFormed(items.head);
      CanonicalItemsWellFormed(items.tail);
    }
  }

  lemma {:induction false} CanonicalPropsWellFormed(props: Props)
    requires Ascending(props) && Proto !in Names(props) && PropsCanonical(props)
    ensures Distinct(props) && PropsWellFormed(props) && StripProps(props) == props
  {
    if props.Prop? {
      assert props.name in Names(props);
      assert forall n :: n in Names(props.rest) ==> n in Names(props);
      CanonicalWellFormed(props.value);
      CanonicalPropsWellFormed(props.rest);
      EnumTotal(props.name, props.name);
    }
  }

  /** Sorting twice is sorting once. */
  lemma SortValueIdempotent(v: Json)
    requires WellFormed(v)
    ensures SortValue(SortValue(v)) == SortValue(v)
  {
    var w := SortValue(v);
    SortValueIs(v);
    CanonicalWellFormed(w);
    SortValueIs(w);
    CanonicalUnique(SortValue(w), w);
  }

  // ---------------------------------------------------------------- what is lost

  /** No property at any depth is named `__proto__`. */
  predicate ProtoFree(v: Json) {
    match v
    case JArr(items) => ItemsProtoFree(items)
    case JObj(props) => PropsProtoFree(props)
    case _ => true
  }

  predicate ItemsProtoFree(items: Items) {
    items.End? || (ProtoFree(items.head) && ItemsProtoFree(items.tail))
  }

  predicate PropsProtoFree(props: Props) {
    props.Empty? || (props.name != Proto && ProtoFree(props.value) && PropsProtoFree(props.rest))
  }

  lemma {:induction false} StripKeepsIff(v: Json)
    requires WellFormed(v)
    ensures MeaningOf(Strip(v)) == MeaningOf(v) <==> ProtoFree(v)
  {
    match v
    case JArr(items) => StripItemsKeepsIff(items);
    case JObj(props) => StripPropsKeepsIff(props);
    case _ =>
  }

  lemma {:induction false} StripItemsKeepsIff(items: Items)
    requires ItemsWellFormed(items)
    ensures |ItemsMeaning(StripItems(items))| == |ItemsMeaning(items)|
    ensures ItemsMeaning(StripItems(items)) == ItemsMeaning(items) <==> ItemsProtoFree(items)
  {
    if items.Item? {
      StripKeepsIff(items.head);
      StripItemsKeepsIff(items.tail);
      var s, m := ItemsMeaning(StripItems(items)), ItemsMeaning(items);
      assert s[0] == MeaningOf(Strip(items.head)) && s[1..] == ItemsMeaning(StripItems(items.tail));
      assert m[0] == MeaningOf(items.head) && m[1..] == ItemsMeaning(items.tail);
    }
  }

  lemma {:induction false} StripPropsKeepsIff(props: Props)
    requires Distinct(props) && PropsWellFormed(props)
    ensures PropsMeaning(StripProps(props)) == PropsMeaning(props) <==> PropsProtoFree(props)
  {
    if props.Prop? {
      StripKeepsIff(props.value);
      StripPropsKeepsIff(props.rest);
      StripDropsProto(props.rest);
      MeansByName(props.rest);
      SameEntry(PropsMeaning(StripProps(props.rest)), PropsMeaning(props.rest), props.name,
        MeaningOf(Strip(props.value)), MeaningOf(props.value));
    }
  }

  lemma SameEntry(s: map<string, Meaning>, m: map<string, Meaning>, name: string, x: Meaning, y: Meaning)
    requires name !in s && name !in m
    ensures s[name := x] == m[name := y] <==> s == m && x == y
    ensures s != m[name := y]
  {
    assert s == s[name := x] - {name} && m == m[name := y] - {name};
    assert s[name := x][name] == x && m[name := y][name] == y;
  }

  /** Sorting keeps every name-to-value map exactly when no property is named `__proto__`. */
  lemma SortValueKeepsIff(v: Json)
    requires WellFormed(v)
    ensures MeaningOf(SortValue(v)) == MeaningOf(v) <==> ProtoFree(v)
  {
    SortValueIs(v);
    StripKeepsIff(v);
  }

  // ---------------------------------------------------------------- JSON.stringify

  function HexDigit(n: nat): char
    requires n < 16
  {
    if n < 10 then '0' + n as char else 'a' + (n - 10) as char
  }

  function EscapeChar(c: char): string {
    if c == '\"' then "\\\""
    else if c == '\\' then "\\\\"
    else if c as int == 8 then "\\b"
    else if c == '\t' then "\\t"
    else if c == '\n' then "\\n"
    else if c as int == 12 then "\\f"
    else if c == '\r' then "\\r"
    else if c as int < 0x20 then "\\u00" + [HexDigit(c as int / 16), HexDigit(c as int % 16)]
    else [c]
  }

  /** The characters of a string and its closing quote. */
  function Escape(s: string): string {
    if s == [] then "\"" else EscapeChar(s[0]) + Escape(s[1..])
  }

  /** The text of a value without undefined members. */
  function Print(v: Json): string
    decreases v, 0
  {
    match v
    case JUndef => "undefined"
    case JNull => "null"
    case JBool(b) => if b then "true" else "false"
    case JNum(text) => text
    case JStr(s) => "\"" + Escape(s)
    case JArr(items) => "[" + (if items.End? then "]" else Print(items.head) + PrintItems(items.tail))
    case JObj(props) =>
      "{" + (if props.Empty? then "}" else PrintProp(props.name, props.value) + PrintProps(props.rest))
  }

  /** The items after the first and the closing bracket. */
  function PrintItems(items: Items): string
    decreases items, 0
  {
    match items
    case End => "]"
    case Item(head, tail) => "," + (Print(head) + PrintItems(tail))
  }

  function PrintProp(name: string, value: Json): string
    decreases value, 1
  {
    "\"" + (Escape(name) + (":" + Print(value)))
  }

  /** The properties after the first and the closing brace. */
  function PrintProps(props: Props): string
    decreases props, 0
  {
    match props
    case Empty => "}"
    case Prop(name, value, rest) => "," + (PrintProp(name, value) + PrintProps(rest))
  }

  // ---------------------------------------------------------------- the printed text determines the value

  lemma EscapeCharPrefix(c: char, d: char, x: string, y: string)
    requires EscapeChar(c) + x == EscapeChar(d) + y
    ensures c == d && x == y
  {
    var p, q := EscapeChar(c), EscapeChar(d);
    assert (p + x)[0] == p[0] && (q + y)[0] == q[0];
    if |p| > 1 && |q| > 1 {
      assert (p + x)[1] == p[1] && (q + y)[1] == q[1];
      if |p| == 6 && |q| == 6 {
        assert (p + x)[4] == p[4] && (q + y)[4] == q[4];
        assert (p + x)[5] == p[5] && (q + y)[5] == q[5];
      }
    }
    assert c == d;
    assert x == (p + x)[|p|..] && y == (q + y)[|q|..];
  }

  lemma {:induction false} EscapePrefix(s: string, t: string, x: string, y: string)
    requires Escape(s) + x == Escape(t) + y
    ensures s == t && x == y
  {
    EscapeStarts(s, x);
    EscapeStarts(t, y);
    if s != [] && t != [] {
      EscapeCharPrefix(s[0], t[0], Escape(s[1..]) + x, Escape(t[1..]) + y);
      EscapePrefix(s[1..], t[1..], x, y);
      assert s == [s[0]] + s[1..] && t == [t[0]] + t[1..];
    }
  }

  lemma EscapeStarts(s: string, x: string)
    ensures (Escape(s) + x)[0] == '\"' <==> s == []
    ensures s == [] ==> (Escape(s) + x)[1..] == x
    ensures s != [] ==> Escape(s) + x == EscapeChar(s[0]) + (Escape(s[1..]) + x)
  {
    if s == [] {
      assert Escape(s) == "\"";
    } else {
      var first, rest := EscapeChar(s[0]), Escape(s[1..]);
      assert Escape(s) == first + rest;
      assert (first + (rest + x))[0] == first[0];
    }
  }

  /** What may follow a printed value: nothing that could go on a number. */
  predicate Stop(x: string) {
    x == [] || !NumberChar(x[0])
  }

  /** The length of the number at the front of a text. */
  function NumberLength(text: string): nat {
    if text == [] || !NumberChar(text[0]) then 0 else 1 + NumberLength(text[1..])
  }

  lemma {:induction false} NumberEnds(a: string, x: string)
    requires Stop(x) && forall i :: 0 <= i < |a| ==> NumberChar(a[i])
    ensures NumberLength(a + x) == |a|
    ensures (a + x)[..|a|] == a && (a + x)[|a|..] == x
  {
    if a == [] {
      assert a + x == x;
    } else {
      assert (a + x)[1..] == a[1..] + x;
      NumberEnds(a[1..], x);
    }
  }

  /** The kind of a value, as its first character tells. */
  function Kind(v: Json): int {
    match v
    case JNull => 0
    case JBool(b) => if b then 1 else 2
    case JNum(_) => 3
    case JStr(_) => 4
    case JArr(_) => 5
    case JObj(_) => 6
    case JUndef => 7
  }

  function KindOf(c: char): int {
    if c == 'n' then 0 else if c == 't' then 1 else if c == 'f' then 2
    else if c == '\"' then 4 else if c == '[' then 5 else if c == '{' then 6 else if c == 'u' then 7 else 3
  }

  lemma FirstTellsKind(v: Json, x: string)
    requires WellFormed(v)
    ensures Print(v) != [] && Print(v) + x != [] && KindOf((Print(v) + x)[0]) == Kind(v)
    ensures Print(v)[0] != ']'
  {
  }

  lemma {:induction false} PrintPrefix(a: Json, b: Json, x: string, y: string)
    requires WellFormed(a) && WellFormed(b) && Stop(x) && Stop(y) && Print(a) + x == Print(b) + y
    ensures a == b && x == y
    decreases a, 0
  {
    FirstTellsKind(a, x);
    FirstTellsKind(b, y);
    assert Kind(a) == Kind(b);
    match a
    case JNum(text) =>
      NumberEnds(text, x);
      NumberEnds(b.text, y);
    case JStr(s) =>
      Rest("\"", Escape(s), x);
      Rest("\"", Escape(b.s), y);
      EscapePrefix(s, b.s, x, y);
    case JArr(items) => PrintArrPrefix(items, b.items, x, y);
    case JObj(props) => PrintObjPrefix(props, b.props, x, y);
    case _ =>
      assert x == (Print(a) + x)[|Print(a)|..] && y == (Print(b) + y)[|Print(b)|..];
  }

  lemma Rest(a: string, b: string, x: string)
    ensures (a + b) + x == a + (b + x)
    ensures ((a + b) + x)[|a|..] == b + x
  {
  }

  lemma {:induction false} PrintArrPrefix(a: Items, b: Items, x: string, y: string)
    requires ItemsWellFormed(a) && ItemsWellFormed(b)
    requires Print(JArr(a)) + x == Print(JArr(b)) + y
    ensures a == b && x == y
    decreases a, 1
  {
    ArrText(a, x);
    ArrText(b, y);
    if a.Item? && b.Item? {
      PrintPrefix(a.head, b.head, PrintItems(a.tail) + x, PrintItems(b.tail) + y);
      PrintItemsPrefix(a.tail, b.tail, x, y);
    }
  }

  lemma ArrText(items: Items, x: string)
    requires ItemsWellFormed(items)
    ensures var whole := Print(JArr(items)) + x;
      && |whole| > 1 && (whole[1] == ']' <==> items.End?)
      && (items.End? ==> whole[2..] == x)
      && (items.Item? ==> whole[1..] == Print(items.head) + (PrintItems(items.tail) + x))
    ensures items.Item? ==> Stop(PrintItems(items.tail) + x)
  {
    if items.Item? {
      FirstTellsKind(items.head, PrintItems(items.tail) + x);
      ItemsText(items.tail, x);
      Rest("[", Print(items.head) + PrintItems(items.tail), x);
      Rest(Print(items.head), PrintItems(items.tail), x);
    }
  }

  lemma {:induction false} PrintItemsPrefix(a: Items, b: Items, x: string, y: string)
    requires ItemsWellFormed(a) && ItemsWellFormed(b) && PrintItems(a) + x == PrintItems(b) + y
    ensures a == b && x == y
    decreases a, 0
  {
    ItemsText(a, x);
    ItemsText(b, y);
    if a.Item? && b.Item? {
      PrintPrefix(a.head, b.head, PrintItems(a.tail) + x, PrintItems(b.tail) + y);
      PrintItemsPrefix(a.tail, b.tail, x, y);
    }
  }

  lemma ItemsText(items: Items, x: string)
    ensures var whole := PrintItems(items) + x;
      && |whole| > 0 && whole[0] == (if items.End? then ']' else ',')
      && whole[1..] == (if items.End? then x else Print(items.head) + (PrintItems(items.tail) + x))
    ensures items.Item? ==> Stop(PrintItems(items.tail) + x)
  {
    if items.Item? {
      Rest(",", Print(items.head) + PrintItems(items.tail), x);
      Rest(Print(items.head), PrintItems(items.tail), x);
    }
  }

  lemma {:induction false} PrintObjPrefix(a: Props, b: Props, x: string, y: string)
    requires PropsWellFormed(a) && PropsWellFormed(b)
    requires Print(JObj(a)) + x == Print(JObj(b)) + y
    ensures a == b && x == y
    decreases a, 1
  {
    ObjText(a, x);
    ObjText(b, y);
    if a.Prop? && b.Prop? {
      PrintPropPrefix(a, b, x, y);
    }
  }

  lemma ObjText(props: Props, x: string)
    ensures var whole := Print(JObj(props)) + x;
      && |whole| > 1 && (whole[1] == '}' <==> props.Empty?)
      && (props.Empty? ==> whole[2..] == x)
      && (props.Prop? ==> whole[1..] == PrintProp(props.name, props.value) + (PrintProps(props.rest) + x))
  {
    if props.Prop? {
      var p := PrintProp(props.name, props.value);
      Rest("{", p + PrintProps(props.rest), x);
      Rest(p, PrintProps(props.rest), x);
    }
  }

  lemma {:induction false} PrintPropPrefix(a: Props, b: Props, x: string, y: string)
    requires a.Prop? && b.Prop? && PropsWellFormed(a) && PropsWellFormed(b)
    requires PrintProp(a.name, a.value) + (PrintProps(a.rest) + x)
      == PrintProp(b.name, b.value) + (PrintProps(b.rest) + y)
    ensures a == b && x == y
    decreases a, 0
  {
    var a', b' := PrintProps(a.rest) + x, PrintProps(b.rest) + y;
    PropText(a, a');
    PropText(b, b');
    EscapePrefix(a.name, b.name, ":" + (Print(a.value) + a'), ":" + (Print(b.value) + b'));
    Rest(":", Print(a.value), a');
    Rest(":", Print(b.value), b');
    PropsText(a.rest, x);
    PropsText(b.rest, y);
    PrintPrefix(a.value, b.value, a', b');
    if a.rest.Prop? && b.rest.Prop? {
      PrintPropPrefix(a.rest, b.rest, x, y);
    }
  }

  lemma PropText(props: Props, x: string)
    requires props.Prop?
    ensures var whole := PrintProp(props.name, props.value) + x;
      && |whole| > 0 && whole[1..] == Escape(props.name) + (":" + (Print(props.value) + x))
  {
  }

  lemma PropsText(props: Props, x: string)
    ensures var whole := PrintProps(props) + x;
      && Stop(whole) && |whole| > 0 && whole[0] == (if props.Empty? then '}' else ',')
      && (props.Empty? ==> whole[1..] == x)
      && (props.Prop? ==> whole[1..] == PrintProp(props.name, props.value) + (PrintProps(props.rest) + x))
  {
    if props.Prop? {
      var p := PrintProp(props.name, props.value);
      Rest(",", p + PrintProps(props.rest), x);
      Rest(p, PrintProps(props.rest), x);
    }
  }

  lemma PrintInjective(a: Json, b: Json)
    requires WellFormed(a) && WellFormed(b)
    ensures Print(a) == Print(b) <==> a == b
  {
    if Print(a) == Print(b) {
      PrintPrefix(a, b, "", "");
    }
  }

  // ---------------------------------------------------------------- members that are undefined

  /** What is printed of a value: no undefined property, and null for an undefined item of an array. */
  function Drop(v: Json): Json {
    match v
    case JArr(items) => JArr(DropItems(items))
    case JObj(props) => JObj(DropProps(props))
    case _ => v
  }

  function DropItems(items: Items): Items {
    match items
    case End => End
    case Item(head, tail) => Item(if head == JUndef then JNull else Drop(head), DropItems(tail))
  }

  function DropProps(props: Props): Props {
    match props
    case Empty => Empty
    case Prop(name, value, rest) =>
      if value == JUndef then DropProps(rest) else Prop(name, Drop(value), DropProps(rest))
  }

  /** What JSON can say of a meaning. */
  function Said(m: Meaning): Meaning {
    match m
    case MArr(items) =>
      MArr(seq(|items|, i requires 0 <= i < |items| => if items[i] == MUndef then MNull else Said(items[i])))
    case MObj(props) => MObj(map n | n in props && props[n] != MUndef :: Said(props[n]))
    case _ => m
  }

  function SaidItem(m: Meaning): Meaning {
    if m == MUndef then MNull else Said(m)
  }

  lemma {:induction false} DropSays(v: Json)
    requires WellFormed(v)
    ensures MeaningOf(Drop(v)) == Said(MeaningOf(v))
    ensures MeaningOf(v) == MUndef <==> v == JUndef
  {
    match v
    case JArr(items) =>
      DropItemsSays(items);
      assert ItemsMeaning(DropItems(items)) == Said(MeaningOf(v)).items;
    case JObj(props) =>
      DropPropsSays(props);
      assert PropsMeaning(DropProps(props)) == Said(MeaningOf(v)).props;
    case _ =>
  }

  /** One meaning for each item of another, as it is said. */
  predicate SaysItems(said: seq<Meaning>, items: seq<Meaning>) {
    |said| == |items| && forall i :: 0 <= i < |items| ==> said[i] == SaidItem(items[i])
  }

  lemma {:induction false} DropItemsSays(items: Items)
    requires ItemsWellFormed(items)
    ensures SaysItems(ItemsMeaning(DropItems(items)), ItemsMeaning(items))
  {
    if items.Item? {
      DropSays(items.head);
      DropItemsSays(items.tail);
    }
  }

  /** The meanings of an object's properties, as they are said. */
  ghost predicate SaysProps(said: map<string, Meaning>, props: map<string, Meaning>) {
    && (forall n :: n in said <==> n in props && props[n] != MUndef)
    && (forall n :: n in said ==> said[n] == Said(props[n]))
  }

  lemma {:induction false} DropPropsSays(props: Props)
    requires Distinct(props) && PropsWellFormed(props)
    ensures SaysProps(PropsMeaning(DropProps(props)), PropsMeaning(props))
  {
    if props.Prop? {
      DropSays(props.value);
      DropPropsSays(props.rest);
      MeansByName(props.rest);
    }
  }

  lemma {:induction false} DropKeepsCanonical(v: Json)
    requires Canonical(v)
    ensures Canonical(Drop(v))
  {
    match v
    case JArr(items) => DropItemsKeepsCanonical(items);
    case JObj(props) => DropPropsKeepsCanonical(props);
    case _ =>
  }

  lemma {:induction false} DropItemsKeepsCanonical(items: Items)
    requires ItemsCanonical(items)
    ensures ItemsCanonical(DropItems(items))
  {
    if items.Item? {
      DropKeepsCanonical(items.head);
      DropItemsKeepsCanonical(items.tail);
    }
  }

  lemma {:induction false} DropPropsKeepsCanonical(props: Props)
    requires Ascending(props) && PropsCanonical(props)
    ensures Ascending(DropProps(props)) && PropsCanonical(DropProps(props))
    ensures forall n :: n in Names(DropProps(props)) ==> n in Names(props)
  {
    if props.Prop? {
      DropKeepsCanonical(props.value);
      DropPropsKeepsCanonical(props.rest);
    }
  }

  /** No member at any depth is undefined, as in every value that was parsed from JSON. */
  predicate Defined(v: Json) {
    match v
    case JUndef => false
    case JArr(items) => ItemsDefined(items)
    case JObj(props) => PropsDefined(props)
    case _ => true
  }

  predicate ItemsDefined(items: Items) {
    items.End? || (Defined(items.head) && ItemsDefined(items.tail))
  }

  predicate PropsDefined(props: Props) {
    props.Empty? || (Defined(props.value) && PropsDefined(props.rest))
  }

  lemma {:induction false} DefinedIsKept(v: Json)
    requires Defined(v)
    ensures Drop(v) == v
  {
    match v
    case JArr(items) => DefinedItemsAreKept(items);
    case JObj(props) => DefinedPropsAreKept(props);
    case _ =>
  }

  lemma {:induction false} DefinedItemsAreKept(items: Items)
    requires ItemsDefined(items)
    ensures DropItems(items) == items
  {
    if items.Item? {
      DefinedIsKept(items.head);
      DefinedItemsAreKept(items.tail);
    }
  }

  lemma {:induction false} DefinedPropsAreKept(props: Props)
    requires PropsDefined(props)
    ensures DropProps(props) == props
  {
    if props.Prop? {
      DefinedIsKept(props.value);
      DefinedPropsAreKept(props.rest);
    }
  }

  // ---------------------------------------------------------------- hashCacheKey

  /** There is no text, and so no hash, of undefined itself. */
  function HashCacheKey<H>(digest: string -> H, v: Json): H
    requires v != JUndef
  {
    digest(Print(Drop(SortValue(v))))
  }

  /** A digest without collisions; SHA-256 is taken to be one. */
  ghost predicate Injective<H(!new)>(digest: string -> H) {
    forall s, t :: digest(s) == digest(t) ==> s == t
  }

  /** The printed value is canonical and says what JSON can say of the value without its `__proto__` properties. */
  lemma PrintedIs(v: Json)
    requires WellFormed(v)
    ensures var w := Drop(SortValue(v));
      Canonical(w) && WellFormed(w) && MeaningOf(w) == Said(MeaningOf(Strip(v)))
  {
    var w := SortValue(v);
    SortValueIs(v);
    DropKeepsCanonical(w);
    CanonicalWellFormed(w);
    CanonicalWellFormed(Drop(w));
    DropSays(w);
  }

  /**
   Two requests get one cache key exactly when they say the same: objects count as unordered
   collections and arrays as sequences, an undefined property counts as left out and an undefined item
   as null. Properties named `__proto__` do not reach the key.
   */
  lemma SameKeyIffSameMeaning<H(!new)>(digest: string -> H, a: Json, b: Json)
    requires Injective(digest) && WellFormed(a) && WellFormed(b) && a != JUndef && b != JUndef
    ensures HashCacheKey(digest, a) == HashCacheKey(digest, b)
            <==> Said(MeaningOf(Strip(a))) == Said(MeaningOf(Strip(b)))
  {
    var x, y := Drop(SortValue(a)), Drop(SortValue(b));
    PrintedIs(a);
    PrintedIs(b);
    PrintInjective(x, y);
    if MeaningOf(x) == MeaningOf(y) {
      CanonicalUnique(x, y);
    }
  }

  /** On requests without `__proto__` and without undefined members the key says exactly what the request says. */
  lemma SameKeyIffSameRequest<H(!new)>(digest: string -> H, a: Json, b: Json)
    requires Injective(digest) && WellFormed(a) && WellFormed(b)
    requires ProtoFree(a) && ProtoFree(b) && Defined(a) && Defined(b)
    ensures HashCacheKey(digest, a) == HashCacheKey(digest, b) <==> MeaningOf(a) == MeaningOf(b)
  {
    SameKeyIffSameMeaning(digest, a, b);
    StripKeepsIff(a);
    StripKeepsIff(b);
    DefinedIsKept(a);
    DefinedIsKept(b);
    DropSays(a);
    DropSays(b);
  }

  /** Two different requests with one key: an object with a `__proto__` property and one without it. */
  lemma ProtoIsLost<H(!new)>(digest: string -> H, value: Json)
    requires Injective(digest) && WellFormed(value)
    ensures var a, b := JObj(Prop(Proto, value, Empty)), JObj(Empty);
      MeaningOf(a) != MeaningOf(b) && HashCacheKey(digest, a) == HashCacheKey(digest, b)
  {
    var a, b := JObj(Prop(Proto, value, Empty)), JObj(Empty);
    assert Proto in PropsMeaning(a.props);
    SameKeyIffSameMeaning(digest, a, b);
  }
}
