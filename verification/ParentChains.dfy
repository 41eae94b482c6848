/** Parent relations over named nodes: chains of parents, and when they end. */
module ParentChains {
  import opened JsValues

  type Parents = map<string, Option<string>>

  function ParentOf(m: Parents, x: string): Option<string> {
    if x in m then m[x] else None
  }

  /** The n-th node up the chain, or nothing once the chain has ended. */
  function Up(m: Parents, x: Option<string>, n: nat): Option<string>
    decreases n
  {
    if n == 0 || x == None then x else Up(m, ParentOf(m, x.value), n - 1)
  }

  ghost predicate Ends(m: Parents, x: Option<string>) {
    exists n :: Up(m, x, n) == None
  }

  /** `t` is `x` or one of its ancestors. */
  ghost predicate OnChain(m: Parents, x: string, t: string) {
    exists n :: Up(m, Some(x), n) == Some(t)
  }

  /** Every parent is itself a node. */
  predicate NoDangling(m: Parents) {
    forall t :: t in m && m[t].Some? ==> m[t].value in m
  }

  /** No node is its own proper ancestor. */
  ghost predicate Acyclic(m: Parents) {
    forall t, n: nat :: t in m && n > 0 ==> Up(m, Some(t), n) != Some(t)
  }

  ghost predicate Forest(m: Parents) {
    NoDangling(m) && Acyclic(m)
  }

  lemma {:induction false} UpAdd(m: Parents, x: Option<string>, a: nat, b: nat)
    ensures Up(m, x, a + b) == Up(m, Up(m, x, a), b)
    decreases a
  {
    if a > 0 && x.Some? {
      UpAdd(m, ParentOf(m, x.value), a - 1, b);
    }
  }

  lemma EndedStays(m: Parents, x: Option<string>, n: nat, k: nat)
    requires Up(m, x, n) == None && n <= k
    ensures Up(m, x, k) == None
  {
    UpAdd(m, x, n, k - n);
  }

  /** A chain that comes back to a node goes round for ever. */
  lemma {:induction false} LoopNeverEnds(m: Parents, x: Option<string>, j: nat, k: nat, n: nat)
    requires j < k && Up(m, x, j) == Up(m, x, k) && Up(m, x, j).Some?
    ensures Up(m, x, n).Some?
    decreases n
  {
    if n >= k {
      LoopNeverEnds(m, x, j, k, n - (k - j));
      UpAdd(m, x, k, n - k);
      UpAdd(m, x, j, n - k);
    } else if Up(m, x, n) == None {
      EndedStays(m, x, n, k);
    }
  }

  lemma {:induction false} UpStaysIn(m: Parents, x: string, n: nat)
    requires NoDangling(m) && x in m
    ensures Up(m, Some(x), n).Some? ==> Up(m, Some(x), n).value in m
    decreases n
  {
    if n > 0 && m[x].Some? {
      UpStaysIn(m, m[x].value, n - 1);
    }
  }

  /** The nodes of the chain below the n-th. */
  function Seen(m: Parents, x: string, n: nat): set<string> {
    if n == 0 then {}
    else Seen(m, x, n - 1) + (match Up(m, Some(x), n - 1) case Some(y) => {y} case None => {})
  }

  ghost predicate Met(m: Parents, x: string, n: nat, y: string) {
    exists k: nat :: k < n && Up(m, Some(x), k) == Some(y)
  }

  lemma {:induction false} SeenAt(m: Parents, x: string, n: nat, y: string)
    ensures y in Seen(m, x, n) <==> Met(m, x, n, y)
    decreases n
  {
    if n > 0 {
      SeenAt(m, x, n - 1, y);
      if Met(m, x, n, y) {
        var k: nat :| k < n && Up(m, Some(x), k) == Some(y);
        assert k < n - 1 ==> Met(m, x, n - 1, y);
      }
      if Met(m, x, n - 1, y) {
        var k: nat :| k < n - 1 && Up(m, Some(x), k) == Some(y);
        assert k < n;
      }
    }
  }

  lemma NotSeen(m: Parents, x: string, n: nat, k: nat)
    requires Forest(m) && x in m && k < n && Up(m, Some(x), n).Some?
    ensures Up(m, Some(x), k) != Up(m, Some(x), n)
  {
    if Up(m, Some(x), k) == None {
      EndedStays(m, Some(x), k, n);
    }
    UpStaysIn(m, x, k);
    UpAdd(m, Some(x), k, n - k);
  }

  /** In a forest every chain ends. */
  lemma ChainEnds(m: Parents, x: string)
    requires Forest(m) && x in m
    ensures Ends(m, Some(x))
  {
    KeepClimbing(m, x, 0);
  }

  lemma {:induction false} KeepClimbing(m: Parents, x: string, n: nat)
    requires Forest(m) && x in m && Seen(m, x, n) <= m.Keys
    ensures Ends(m, Some(x))
    decreases m.Keys - Seen(m, x, n)
  {
    var y := Up(m, Some(x), n);
    if y.Some? {
      UpStaysIn(m, x, n);
      forall k: nat | k < n ensures Up(m, Some(x), k) != y {
        NotSeen(m, x, n, k);
      }
      SeenAt(m, x, n, y.value);
      assert y.value in m.Keys - Seen(m, x, n) && Seen(m, x, n + 1) == Seen(m, x, n) + {y.value};
      KeepClimbing(m, x, n + 1);
    }
  }

  /** A relation whose chains all end has no cycle. */
  lemma EndsAcyclic(m: Parents)
    requires forall t :: t in m ==> Ends(m, Some(t))
    ensures Acyclic(m)
  {
    forall t, n: nat | t in m && n > 0 ensures Up(m, Some(t), n) != Some(t) {
      if Up(m, Some(t), n) == Some(t) {
        var e :| Up(m, Some(t), e) == None;
        LoopNeverEnds(m, Some(t), 0, n, e);
        assert false;
      }
    }
  }

  // ---------------------------------------------------------------- changing one parent

  ghost predicate SameBut(m: Parents, m': Parents, t: string) {
    forall x :: x != t ==> ParentOf(m, x) == ParentOf(m', x)
  }

  predicate Avoids(m: Parents, x: Option<string>, n: nat, t: string) {
    forall k :: 0 <= k < n ==> Up(m, x, k) != Some(t)
  }

  lemma {:induction false} SameUntil(m: Parents, m': Parents, t: string, x: Option<string>, n: nat)
    requires SameBut(m, m', t) && Avoids(m, x, n, t)
    ensures Up(m', x, n) == Up(m, x, n)
    decreases n
  {
    if n > 0 && x.Some? {
      assert Up(m, x, 0) == x;
      forall k | 0 <= k < n - 1 ensures Up(m, ParentOf(m, x.value), k) != Some(t) {
        assert Up(m, x, k + 1) == Up(m, ParentOf(m, x.value), k);
      }
      SameUntil(m, m', t, ParentOf(m, x.value), n - 1);
    }
  }

  /** A chain either avoids `t`, or there is a first time it meets it. */
  lemma FirstMeeting(m: Parents, x: Option<string>, n: nat, t: string) returns (k: nat)
    ensures k <= n && Avoids(m, x, k, t) && (k < n ==> Up(m, x, k) == Some(t))
  {
    k := 0;
    while k < n && Up(m, x, k) != Some(t)
      invariant k <= n && Avoids(m, x, k, t)
    {
      k := k + 1;
    }
  }

  lemma EndsThrough(m: Parents, m': Parents, t: string, x: Option<string>)
    requires SameBut(m, m', t) && Ends(m, x) && Ends(m', Some(t))
    ensures Ends(m', x)
  {
    var n :| Up(m, x, n) == None;
    var k := FirstMeeting(m, x, n, t);
    SameUntil(m, m', t, x, k);
    if k < n {
      var e :| Up(m', Some(t), e) == None;
      UpAdd(m', x, k, e);
      assert Up(m', x, k + e) == None;
    }
  }

  /**
   Giving `t` a parent, whether `t` is new or not, keeps the forest exactly when `t` is not on the
   chain of its new parent.
   */
  lemma SetParentKeepsForestIff(m: Parents, t: string, p: string)
    requires Forest(m) && p in m
    ensures Forest(m[t := Some(p)]) <==> !OnChain(m, p, t)
  {
    var m' := m[t := Some(p)];
    ChainEnds(m, p);
    var n: nat :| Up(m, Some(p), n) == None;
    var k := FirstMeeting(m, Some(p), n, t);
    SameUntil(m, m', t, Some(p), k);
    assert Up(m', Some(t), k + 1) == Up(m', Some(p), k);
    if k == n {
      AvoidedForGood(m, p, n, t);
      forall x | x in m' ensures Ends(m', Some(x)) {
        assert Up(m', Some(t), n + 1) == None;
        if x != t {
          ChainEnds(m, x);
          EndsThrough(m, m', t, Some(x));
        }
      }
      EndsAcyclic(m');
    }
  }

  lemma AvoidedForGood(m: Parents, p: string, n: nat, t: string)
    requires Up(m, Some(p), n) == None && Avoids(m, Some(p), n, t)
    ensures !OnChain(m, p, t)
  {
    forall k: nat | Up(m, Some(p), k) == Some(t) ensures false {
      if k >= n {
        EndedStays(m, Some(p), n, k);
      }
    }
  }

  lemma SetRootKeepsForest(m: Parents, t: string)
    requires Forest(m)
    ensures Forest(m[t := None])
  {
    var m' := m[t := None];
    assert Up(m', Some(t), 1) == None;
    forall x | x in m' ensures Ends(m', Some(x)) {
      if x != t {
        ChainEnds(m, x);
        EndsThrough(m, m', t, Some(x));
      }
    }
    EndsAcyclic(m');
  }

  lemma RemoveLeafKeepsForest(m: Parents, t: string)
    requires Forest(m) && forall x :: x in m ==> m[x] != Some(t)
    ensures Forest(m - {t})
  {
    var m' := m - {t};
    assert Up(m', Some(t), 1) == None;
    forall x | x in m' ensures Ends(m', Some(x)) {
      ChainEnds(m, x);
      EndsThrough(m, m', t, Some(x));
    }
    EndsAcyclic(m');
  }
}
