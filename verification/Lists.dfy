/** Small matters of lists: elements, counts, slices and pages. */
module Lists {
  import opened JsValues

  function Elements(s: seq<string>): set<string> {
    set x | x in s
  }

  /** `[...new Set(s)]`: the first occurrence of each element. */
  function Unique(s: seq<string>): (u: seq<string>)
    ensures Elements(u) == Elements(s)
    ensures forall i, j :: 0 <= i < j < |u| ==> u[i] != u[j]
  {
    if s == [] then []
    else
      var rest, x := Unique(s[..|s| - 1]), s[|s| - 1];
      assert s == s[..|s| - 1] + [x];
      assert Elements(s) == Elements(s[..|s| - 1]) + {x};
      assert Elements(rest + [x]) == Elements(rest) + {x};
      assert x in rest <==> x in Elements(rest);
      if x in rest then rest else rest + [x]
  }

  /** The first of each element stands in the order of the list: the elements of a part of it come first. */
  lemma {:induction false} UniqueInOrder(s: seq<string>, n: nat)
    requires n <= |s|
    ensures Unique(s[..n]) <= Unique(s)
  {
    if n < |s| {
      assert s[..|s| - 1][..n] == s[..n];
      UniqueInOrder(s[..|s| - 1], n);
    } else {
      assert s[..n] == s;
    }
  }

  function Count<T(==)>(items: seq<T>, x: T): nat {
    multiset(items)[x]
  }

  function One(b: bool): nat { if b then 1 else 0 }

  lemma CountJoin<T>(a: seq<T>, b: seq<T>, x: T)
    ensures Count(a + b, x) == Count(a, x) + Count(b, x)
  {
  }

  /** `slice(offset, offset + limit)`. */
  function Slice<T>(s: seq<T>, offset: nat, limit: nat): seq<T> {
    s[Min(offset, |s|)..Min(offset + limit, |s|)]
  }

  function Min(a: nat, b: nat): nat { if a < b then a else b }

  /** Consecutive pages from an offset on, while there is anything left. */
  function Pages<T>(s: seq<T>, offset: nat, limit: nat): seq<seq<T>>
    requires limit > 0
    decreases |s| - offset
  {
    if offset >= |s| then [] else [Slice(s, offset, limit)] + Pages(s, offset + limit, limit)
  }

  function Joined<T>(pages: seq<seq<T>>): seq<T> {
    if pages == [] then [] else pages[0] + Joined(pages[1..])
  }

  /** Consecutive pages concatenate to the whole list. */
  lemma {:induction false} PagesAddUp<T>(s: seq<T>, offset: nat, limit: nat)
    requires limit > 0 && offset <= |s|
    ensures Joined(Pages(s, offset, limit)) == s[offset..]
    decreases |s| - offset
  {
    if offset < |s| {
      var next := Min(offset + limit, |s|);
      if next < |s| {
        PagesAddUp(s, next, limit);
      }
      assert Pages(s, offset, limit)[1..] == Pages(s, offset + limit, limit);
      assert s[offset..] == s[offset..next] + s[next..];
    }
  }

  /** The position of the last element that fits. */
  function LastWhere<T>(s: seq<T>, fits: T -> bool): (r: Option<nat>)
    ensures r.Some? ==> r.value < |s| && fits(s[r.value]) && forall j :: r.value < j < |s| ==> !fits(s[j])
    ensures r == None ==> forall j :: 0 <= j < |s| ==> !fits(s[j])
  {
    if s == [] then None
    else if fits(s[|s| - 1]) then Some(|s| - 1)
    else LastWhere(s[..|s| - 1], fits)
  }
}
