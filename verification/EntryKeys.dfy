/**
 The printed keys of cache entries: `prefix:namespace:v<own version>:<sub-key>` followed by
 `:<dep>v<version>` for every namespace the read also depends on. The cache is only right
 when two reads, or two version vectors, never print the same key.
 */
module EntryKeys {

  /** One kind of read: its own namespace, its sub-key and the other namespaces it joins. */
  datatype Request = Request(ns: string, key: string, deps: seq<string>) {
    /** Every namespace whose version is embedded in the key. */
    function Names(): set<string> {
      {ns} + set d | d in deps
    }
  }

  type Versions = map<string, nat>

  /** A namespace without a counter is at version 1. */
  function Eff(vv: Versions, n: string): nat {
    if n in vv then vv[n] else 1
  }

  // ---------------------------------------------------------------- decimal numbers

  predicate IsDigit(c: char) {
    '0' <= c <= '9'
  }

  predicate AllDigits(s: string) {
    forall i :: 0 <= i < |s| ==> IsDigit(s[i])
  }

  function Decimal(n: nat): (s: string)
    ensures |s| > 0 && AllDigits(s)
  {
    if n < 10 then ['0' + n as char] else Decimal(n / 10) + ['0' + (n % 10) as char]
  }

  function DecimalValue(s: string): nat
    requires AllDigits(s)
  {
    if s == [] then 0 else 10 * DecimalValue(s[..|s| - 1]) + (s[|s| - 1] - '0') as nat
  }

  lemma {:induction false} DecimalRoundTrip(n: nat)
    ensures DecimalValue(Decimal(n)) == n
  {
    if n >= 10 {
      DecimalRoundTrip(n / 10);
      var s := Decimal(n);
      assert s[..|s| - 1] == Decimal(n / 10);
    } else {
      assert Decimal(n)[..0] == [];
    }
  }

  lemma DecimalInjective(m: nat, n: nat)
    requires Decimal(m) == Decimal(n)
    ensures m == n
  {
    DecimalRoundTrip(m);
    DecimalRoundTrip(n);
  }

  // ---------------------------------------------------------------- the printed key

  function Tail(dep: string, v: nat): string {
    ":" + dep + "v" + Decimal(v)
  }

  function Suffix(deps: seq<string>, vv: Versions): string {
    if deps == [] then ""
    else Suffix(deps[..|deps| - 1], vv) + Tail(deps[|deps| - 1], Eff(vv, deps[|deps| - 1]))
  }

  function Head(ns: string, v: nat): string {
    ns + ":v" + Decimal(v) + ":"
  }

  function EntryKey(prefix: string, r: Request, vv: Versions): string {
    prefix + ":" + Head(r.ns, Eff(vv, r.ns)) + r.key + Suffix(r.deps, vv)
  }

  predicate Agree(names: set<string>, vv: Versions, ww: Versions) {
    forall n :: n in names ==> Eff(vv, n) == Eff(ww, n)
  }

  // ---------------------------------------------------------------- stripping numbers off both ends

  /** A maximal run of digits at the end of a string can only be read one way. */
  lemma StripDigits(p: string, d: string, q: string, e: string)
    requires AllDigits(d) && AllDigits(e)
    requires |p| > 0 && !IsDigit(p[|p| - 1])
    requires |q| > 0 && !IsDigit(q[|q| - 1])
    requires p + d == q + e
    ensures p == q && d == e
  {
    var s, t := p + d, q + e;
    assert t[|p| - 1] == s[|p| - 1] == p[|p| - 1];
    assert s[|q| - 1] == t[|q| - 1] == q[|q| - 1];
    assert p == s[..|p|] && q == t[..|q|];
    assert d == s[|p|..] && e == t[|q|..];
  }

  lemma StripTail(a: string, x: string, m: nat, b: string, y: string, n: nat)
    requires a + Tail(x, m) == b + Tail(y, n)
    ensures m == n
    ensures a + ":" + x == b + ":" + y
  {
    var p, q := a + ":" + x + "v", b + ":" + y + "v";
    assert a + Tail(x, m) == p + Decimal(m);
    assert b + Tail(y, n) == q + Decimal(n);
    StripDigits(p, Decimal(m), q, Decimal(n));
    DecimalInjective(m, n);
    assert a + ":" + x == p[..|p| - 1];
    assert b + ":" + y == q[..|q| - 1];
  }

  lemma CancelRight(a: string, b: string, t: string)
    requires a + t == b + t
    ensures a == b
  {
    assert a == (a + t)[..|a|];
    assert b == (b + t)[..|b|];
  }

  lemma CancelLeft(t: string, a: string, b: string)
    requires t + a == t + b
    ensures a == b
  {
    assert a == (t + a)[|t|..];
    assert b == (t + b)[|t|..];
  }

  /** The same digits-then-colon reading from the left. */
  lemma StripVersion(m: nat, s: string, n: nat, t: string)
    requires Decimal(m) + ":" + s == Decimal(n) + ":" + t
    ensures m == n && s == t
  {
    var a, b := Decimal(m) + ":" + s, Decimal(n) + ":" + t;
    var i, j := |Decimal(m)|, |Decimal(n)|;
    assert b[i] == a[i] == ':' && a[j] == b[j] == ':';
    assert forall k :: 0 <= k < i ==> IsDigit(Decimal(m)[k]);
    assert forall k :: 0 <= k < j ==> IsDigit(Decimal(n)[k]);
    assert i == j;
    assert Decimal(m) == a[..i] && Decimal(n) == b[..j];
    DecimalInjective(m, n);
    assert s == a[i + 1..] && t == b[j + 1..];
  }

  lemma SuffixUnfolds(a: string, deps: seq<string>, vv: Versions)
    requires deps != []
    ensures var x := deps[|deps| - 1];
            a + Suffix(deps, vv) == (a + Suffix(deps[..|deps| - 1], vv)) + Tail(x, Eff(vv, x))
  {
  }

  /** The suffix as it is printed, one dependency after the other. */
  lemma NextDependency(a: string, deps: seq<string>, i: nat, vv: Versions)
    requires i < |deps|
    ensures a + Suffix(deps[..i + 1], vv) == a + Suffix(deps[..i], vv) + ":" + deps[i] + "v" + Decimal(Eff(vv, deps[i]))
  {
    assert deps[..i + 1][..i] == deps[..i];
    var x, p := deps[i], a + Suffix(deps[..i], vv);
    SuffixUnfolds(a, deps[..i + 1], vv);
    assert p + Tail(x, Eff(vv, x)) == p + ":" + x + "v" + Decimal(Eff(vv, x));
  }

  /** With one list of dependencies the versions and whatever precedes them are recovered, for any sub-key. */
  lemma {:induction false} SuffixInjective(a: string, b: string, deps: seq<string>, vv: Versions, ww: Versions)
    requires a + Suffix(deps, vv) == b + Suffix(deps, ww)
    ensures a == b
    ensures forall d :: d in deps ==> Eff(vv, d) == Eff(ww, d)
  {
    if deps == [] {
      assert a + "" == a && b + "" == b;
    } else {
      var rest, x := deps[..|deps| - 1], deps[|deps| - 1];
      var p, q := a + Suffix(rest, vv), b + Suffix(rest, ww);
      SuffixUnfolds(a, deps, vv);
      SuffixUnfolds(b, deps, ww);
      StripTail(p, x, Eff(vv, x), q, x, Eff(ww, x));
      assert p + ":" + x == p + (":" + x) && q + ":" + x == q + (":" + x);
      CancelRight(p, q, ":" + x);
      SuffixInjective(a, b, rest, vv, ww);
      forall d | d in deps ensures Eff(vv, d) == Eff(ww, d) {
        if d != x {
          assert d in rest;
        }
      }
    }
  }

  lemma KeySplits(prefix: string, r: Request, vv: Versions)
    ensures EntryKey(prefix, r, vv)
         == (prefix + ":") + (r.ns + ":v" + (Decimal(Eff(vv, r.ns)) + ":" + (r.key + Suffix(r.deps, vv))))
  {
  }

  /** For one namespace and one dependency list the key determines the sub-key and every embedded version. */
  lemma EntryKeyInjective(prefix: string, ns: string, deps: seq<string>, k: string, vv: Versions, l: string,
                          ww: Versions)
    requires EntryKey(prefix, Request(ns, k, deps), vv) == EntryKey(prefix, Request(ns, l, deps), ww)
    ensures k == l && Agree(Request(ns, k, deps).Names(), vv, ww)
  {
    var q, r := Request(ns, k, deps), Request(ns, l, deps);
    KeySplits(prefix, q, vv);
    KeySplits(prefix, r, ww);
    var a := Decimal(Eff(vv, ns)) + ":" + (k + Suffix(deps, vv));
    var b := Decimal(Eff(ww, ns)) + ":" + (l + Suffix(deps, ww));
    CancelLeft(prefix + ":", ns + ":v" + a, ns + ":v" + b);
    CancelLeft(ns + ":v", a, b);
    StripVersion(Eff(vv, ns), k + Suffix(deps, vv), Eff(ww, ns), l + Suffix(deps, ww));
    SuffixInjective(k, l, deps, vv, ww);
  }

  // ---------------------------------------------------------------- across namespaces

  /** Position `i` of the namespace starts something that reads like `:v<number>`. */
  predicate VersionMarkAt(ns: string, i: nat) {
    i + 2 < |ns| && ns[i] == ':' && ns[i + 1] == 'v' && IsDigit(ns[i + 2])
  }

  ghost predicate CleanNamespace(ns: string) {
    forall i: nat :: !VersionMarkAt(ns, i)
  }

  predicate VersionTailAt(key: string, i: nat) {
    i + 1 < |key| && key[i] == 'v' && AllDigits(key[i + 1..])
  }

  /** The sub-key must not end in `v<number>`, or it could be taken for an embedded version. */
  ghost predicate CleanKey(key: string) {
    forall i: nat :: !VersionTailAt(key, i)
  }

  /** `:x` is what `y` ends with, so a key cut at `x` might also be cut at `y`. */
  predicate HidesIn(x: string, y: string) {
    |x| < |y| && y[|y| - |x| - 1..] == ":" + x
  }

  predicate SeparateDeps(q: Request, r: Request) {
    forall x, y :: x in q.deps && y in r.deps ==> !HidesIn(x, y)
  }

  /** Reads of one namespace have one dependency list, or sub-keys and dependencies that cannot be mixed up. */
  ghost predicate Apart(q: Request, r: Request) {
    q.ns == r.ns ==>
      || q.deps == r.deps
      || (CleanKey(q.key) && CleanKey(r.key) && SeparateDeps(q, r) && SeparateDeps(r, q))
  }

  /** What the callers of the cache have to keep to, each part visible in the names alone. */
  ghost predicate Disciplined(requests: set<Request>) {
    && (forall r {:trigger CleanNamespace(r.ns)} :: r in requests ==> CleanNamespace(r.ns))
    && (forall q, r {:trigger Apart(q, r)} :: q in requests && r in requests ==> Apart(q, r))
  }

  lemma HeadInjective(m: string, v: nat, s: string, n: string, w: nat, t: string)
    requires CleanNamespace(m) && CleanNamespace(n)
    requires m + ":v" + (Decimal(v) + ":" + s) == n + ":v" + (Decimal(w) + ":" + t)
    requires |m| <= |n|
    ensures m == n
  {
    var a, b := m + ":v" + (Decimal(v) + ":" + s), n + ":v" + (Decimal(w) + ":" + t);
    if |m| < |n| {
      assert a[|m|] == ':' && a[|m| + 1] == 'v' && a[|m| + 2] == Decimal(v)[0];
      assert b[|n|] == ':';
      if |n| > |m| + 2 {
        assert b[|m|] == n[|m|] && b[|m| + 1] == n[|m| + 1] && b[|m| + 2] == n[|m| + 2];
        assert VersionMarkAt(n, |m|);
      }
    }
    assert m == a[..|m|] && n == b[..|n|];
  }

  lemma TailIsVersionTail(a: string, x: string, n: nat)
    ensures !CleanKey(a + Tail(x, n))
  {
    var s, i := a + Tail(x, n), |a| + 1 + |x|;
    assert s == a + ":" + x + "v" + Decimal(n);
    assert s[i + 1..] == Decimal(n);
    assert VersionTailAt(s, i);
  }

  lemma SameDep(a: string, x: string, b: string, y: string)
    requires a + ":" + x == b + ":" + y
    requires !HidesIn(x, y) && !HidesIn(y, x)
    ensures x == y && a == b
  {
    var s, t := a + ":" + x, b + ":" + y;
    assert s[|s| - |x| - 1..] == ":" + x && t[|t| - |y| - 1..] == ":" + y;
    assert |x| < |y| ==> HidesIn(x, y);
    assert |y| < |x| ==> HidesIn(y, x);
    assert x == s[|s| - |x|..] && y == t[|t| - |y|..];
    assert a == s[..|a|] && b == t[..|b|];
  }

  lemma SuffixIsVersionTail(l: string, d: seq<string>, ww: Versions)
    requires d != []
    ensures !CleanKey(l + Suffix(d, ww))
  {
    var rest, y := d[..|d| - 1], d[|d| - 1];
    SuffixUnfolds(l, d, ww);
    TailIsVersionTail(l + Suffix(rest, ww), y, Eff(ww, y));
  }

  /** What both keys carry last is the same dependency at the same version. */
  lemma SuffixStep(k: string, c: seq<string>, vv: Versions, l: string, d: seq<string>, ww: Versions)
    requires c != [] && d != []
    requires k + Suffix(c, vv) == l + Suffix(d, ww)
    requires !HidesIn(c[|c| - 1], d[|d| - 1]) && !HidesIn(d[|d| - 1], c[|c| - 1])
    ensures c[|c| - 1] == d[|d| - 1] && Eff(vv, c[|c| - 1]) == Eff(ww, d[|d| - 1])
    ensures k + Suffix(c[..|c| - 1], vv) == l + Suffix(d[..|d| - 1], ww)
  {
    var x, y := c[|c| - 1], d[|d| - 1];
    var p, q := k + Suffix(c[..|c| - 1], vv), l + Suffix(d[..|d| - 1], ww);
    SuffixUnfolds(k, c, vv);
    SuffixUnfolds(l, d, ww);
    StripTail(p, x, Eff(vv, x), q, y, Eff(ww, y));
    SameDep(p, x, q, y);
  }

  ghost predicate NoneHides(c: seq<string>, d: seq<string>) {
    forall x, y :: x in c && y in d ==> !HidesIn(x, y) && !HidesIn(y, x)
  }

  lemma {:induction false} SuffixSeparates(k: string, c: seq<string>, vv: Versions, l: string, d: seq<string>,
                                           ww: Versions)
    requires k + Suffix(c, vv) == l + Suffix(d, ww)
    requires CleanKey(k) && CleanKey(l)
    requires NoneHides(c, d)
    ensures k == l && c == d
    ensures forall x :: x in c ==> Eff(vv, x) == Eff(ww, x)
    decreases |c|
  {
    assert k + "" == k && l + "" == l;
    if c == [] || d == [] {
      if d != [] { SuffixIsVersionTail(l, d, ww); }
      if c != [] { SuffixIsVersionTail(k, c, vv); }
    } else {
      SuffixStep(k, c, vv, l, d, ww);
      var c', x, d' := c[..|c| - 1], c[|c| - 1], d[..|d| - 1];
      SuffixSeparates(k, c', vv, l, d', ww);
      assert c == c' + [x] && d == d' + [x];
    }
  }

  /**
   Among the reads of a disciplined service the printed key determines the whole read and
   every version in it, even between different namespaces and dependency lists.
   */
  lemma KeysNeverCollide(requests: set<Request>, prefix: string, q: Request, vv: Versions, r: Request, ww: Versions)
    requires Disciplined(requests) && q in requests && r in requests
    requires EntryKey(prefix, q, vv) == EntryKey(prefix, r, ww)
    ensures q == r && Agree(q.Names(), vv, ww)
  {
    KeySplits(prefix, q, vv);
    KeySplits(prefix, r, ww);
    var s, t := q.key + Suffix(q.deps, vv), r.key + Suffix(r.deps, ww);
    var a := Decimal(Eff(vv, q.ns)) + ":" + s;
    var b := Decimal(Eff(ww, r.ns)) + ":" + t;
    CancelLeft(prefix + ":", q.ns + ":v" + a, r.ns + ":v" + b);
    if |q.ns| <= |r.ns| {
      HeadInjective(q.ns, Eff(vv, q.ns), s, r.ns, Eff(ww, r.ns), t);
    } else {
      HeadInjective(r.ns, Eff(ww, r.ns), t, q.ns, Eff(vv, q.ns), s);
    }
    CancelLeft(q.ns + ":v", a, b);
    StripVersion(Eff(vv, q.ns), s, Eff(ww, r.ns), t);
    assert Apart(q, r);
    if q.deps == r.deps {
      SuffixInjective(q.key, r.key, q.deps, vv, ww);
    } else {
      SuffixSeparates(q.key, q.deps, vv, r.key, r.deps, ww);
    }
  }

  lemma {:induction false} SuffixAgrees(deps: seq<string>, vv: Versions, ww: Versions)
    requires forall d :: d in deps ==> Eff(vv, d) == Eff(ww, d)
    ensures Suffix(deps, vv) == Suffix(deps, ww)
  {
    if deps != [] {
      assert deps[|deps| - 1] in deps;
      SuffixAgrees(deps[..|deps| - 1], vv, ww);
    }
  }

  /** The other way round: the key depends on nothing but the read and the versions of its names. */
  lemma AgreeingVersionsPrintOneKey(prefix: string, r: Request, vv: Versions, ww: Versions)
    requires Agree(r.Names(), vv, ww)
    ensures EntryKey(prefix, r, vv) == EntryKey(prefix, r, ww)
  {
    SuffixAgrees(r.deps, vv, ww);
  }

  /** Each part of the discipline is needed. A namespace with a version mark: two reads print one key. */
  lemma UncleanNamespaceCollides(prefix: string)
    ensures EntryKey(prefix, Request("a", "v2:k", []), map[])
      == EntryKey(prefix, Request("a:v1", "k", []), map["a:v1" := 2])
  {
  }

  /** A sub-key with a version tail. */
  lemma UncleanKeyCollides(prefix: string)
    ensures EntryKey(prefix, Request("a", "k:bv1", []), map[]) == EntryKey(prefix, Request("a", "k", ["b"]), map[])
  {
  }

  /** A dependency that another one ends with. */
  lemma HiddenDepCollides(prefix: string)
    ensures EntryKey(prefix, Request("a", "k:b", ["c"]), map[]) == EntryKey(prefix, Request("a", "k", ["b:c"]), map[])
  {
  }

  /**
   A `family:id` namespace, as every call site builds it, is clean exactly when the id with its colon
   is: for an id without colons, when it does not start like a version.
   */
  lemma FamilyNamespaceClean(family: string, id: string)
    requires ':' !in family
    ensures CleanNamespace(family + ":" + id) <==> CleanNamespace(":" + id)
    ensures ':' !in id ==> (CleanNamespace(":" + id) <==> !(|id| >= 2 && id[0] == 'v' && IsDigit(id[1])))
  {
    var ns, tail, n := family + ":" + id, ":" + id, |family|;
    assert forall i :: 0 <= i < n ==> ns[i] == family[i];
    assert forall i :: 0 <= i < |tail| ==> ns[n + i] == tail[i];
    forall i: nat ensures VersionMarkAt(ns, n + i) <==> VersionMarkAt(tail, i) {
    }
    forall i: nat | VersionMarkAt(ns, i) ensures i >= n && VersionMarkAt(tail, i - n) {
      assert ns[i] == ':';
    }
    if ':' !in id {
      assert forall i :: 0 <= i < |id| ==> tail[1 + i] == id[i];
      forall i: nat | VersionMarkAt(tail, i) ensures i == 0 {
        assert tail[i] == ':';
      }
      assert VersionMarkAt(tail, 0) <==> |id| >= 2 && id[0] == 'v' && IsDigit(id[1]);
    }
  }
}
