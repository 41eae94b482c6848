/**
 The tree below a cohort: the recursion ends exactly when the root is on no cycle of parents, and then
 every cohort below the root is in it once.
 */
module CohortHierarchy {
  import opened JsValues
  import opened Lists
  import opened ParentChains

  datatype Cohort = Cohort(cohortId: string, name: string, parentId: Option<string>)

  datatype Node = Node(cohort: Cohort, childData: seq<Node>)

  predicate UniqueIds(table: seq<Cohort>) {
    forall i, j :: 0 <= i < j < |table| ==> table[i].cohortId != table[j].cohortId
  }

  function Tree(table: seq<Cohort>): Parents {
    if table == [] then map[]
    else Tree(table[..|table| - 1])[table[|table| - 1].cohortId := table[|table| - 1].parentId]
  }

  lemma {:induction false} TreeHas(table: seq<Cohort>)
    requires UniqueIds(table)
    ensures forall i :: 0 <= i < |table| ==>
      table[i].cohortId in Tree(table) && Tree(table)[table[i].cohortId] == table[i].parentId
    ensures forall x :: x in Tree(table) ==> exists i :: 0 <= i < |table| && table[i].cohortId == x
  {
    if table != [] {
      var n := |table| - 1;
      TreeHas(table[..n]);
      forall i | 0 <= i < |table|
        ensures table[i].cohortId in Tree(table) && Tree(table)[table[i].cohortId] == table[i].parentId
      {
        if i < n {
          assert table[..n][i] == table[i];
        }
      }
      forall x | x in Tree(table) ensures exists i :: 0 <= i < |table| && table[i].cohortId == x {
        if x != table[n].cohortId {
          var i :| 0 <= i < n && table[..n][i].cohortId == x;
          assert table[i].cohortId == x;
        }
      }
    }
  }

  /** `find({ where: { parentId } })`, in table order. */
  function Children(table: seq<Cohort>, parent: string): seq<Cohort> {
    if table == [] then []
    else
      var n := |table| - 1;
      Children(table[..n], parent) + if table[n].parentId == Some(parent) then [table[n]] else []
  }

  lemma {:induction false} ChildrenAre(table: seq<Cohort>, parent: string)
    ensures forall c :: c in Children(table, parent) <==> c in table && c.parentId == Some(parent)
    ensures UniqueIds(table) ==> UniqueIds(Children(table, parent))
  {
    if table != [] {
      var n := |table| - 1;
      ChildrenAre(table[..n], parent);
      assert table == table[..n] + [table[n]];
    }
  }

  /** They are in table order: those of the first `n` rows come first. */
  lemma {:induction false} ChildrenInOrder(table: seq<Cohort>, parent: string, n: nat)
    requires n <= |table|
    ensures Children(table[..n], parent) <= Children(table, parent)
    ensures n < |table| && table[n].parentId == Some(parent) ==>
      Children(table[..n], parent) + [table[n]] <= Children(table, parent)
  {
    var last := |table| - 1;
    if n == |table| {
      assert table[..n] == table;
    } else if n == last {
      assert Children(table[..n], parent) <= Children(table, parent);
    } else {
      ChildrenInOrder(table[..last], parent, n);
      assert table[..last][..n] == table[..n];
    }
  }

  /** The cohorts of the trees, from the top. */
  function Ids(trees: seq<Node>): seq<string> {
    if trees == [] then []
    else [trees[0].cohort.cohortId] + Ids(trees[0].childData) + Ids(trees[1..])
  }

  lemma {:induction false} IdsAppend(trees: seq<Node>, t: Node)
    ensures Ids(trees + [t]) == Ids(trees) + [t.cohort.cohortId] + Ids(t.childData)
  {
    if trees == [] {
      assert [t][1..] == [] && [] + [t] == [t];
    } else {
      assert (trees + [t])[1..] == trees[1..] + [t];
      IdsAppend(trees[1..], t);
    }
  }

  /** Every cohort's children are there, under it, in table order. */
  predicate Placed(table: seq<Cohort>, parent: string, trees: seq<Node>)
    decreases trees
  {
    && |trees| == |Children(table, parent)|
    && forall i :: 0 <= i < |trees| ==>
         trees[i].cohort == Children(table, parent)[i] && Placed(table, trees[i].cohort.cohortId, trees[i].childData)
  }

  /** `x` is a cohort somewhere below `root`. */
  ghost predicate Below(m: Parents, x: string, root: string) {
    x in m && exists n: nat :: n > 0 && Up(m, Some(x), n) == Some(root)
  }

  /** `x` is one of the first k children, or below one. */
  ghost predicate UnderFirst(m: Parents, x: string, children: seq<Cohort>, k: nat)
    requires k <= |children|
  {
    exists i :: 0 <= i < k && Under(m, x, children[i].cohortId)
  }

  ghost predicate Under(m: Parents, x: string, c: string) {
    x == c || Below(m, x, c)
  }

  ghost predicate ListsFirst(m: Parents, children: seq<Cohort>, k: nat, ids: seq<string>)
    requires k <= |children|
  {
    forall x :: multiset(ids)[x] == One(UnderFirst(m, x, children, k))
  }

  /** The root is not above itself: no cohort below it is on a cycle then. */
  ghost predicate OffCycles(m: Parents, root: string) {
    forall n: nat :: n > 0 ==> Up(m, Some(root), n) != Some(root)
  }

  /** The recursion gets this deep: some cohort has the root so many steps above it. */
  ghost predicate GetsTo(m: Parents, root: string, depth: nat) {
    exists x :: Up(m, Some(x), depth) == Some(root)
  }

  /** The nodes met on the way down all lie on the way up. */
  ghost predicate OnTheWay(m: Parents, root: string, path: set<string>) {
    root in path && forall y :: y in path ==> OnChain(m, root, y)
  }

  /** What the loop has built: the trees of the first k children. */
  ghost predicate Built(table: seq<Cohort>, children: seq<Cohort>, k: nat, trees: seq<Node>) {
    && k <= |children| && |trees| == k
    && (forall i :: 0 <= i < k ==>
          trees[i].cohort == children[i] && Placed(table, children[i].cohortId, trees[i].childData))
    && ListsFirst(Tree(table), children, k, Ids(trees))
  }

  ghost predicate ListsBelow(m: Parents, root: string, trees: seq<Node>) {
    forall x :: multiset(Ids(trees))[x] == One(Below(m, x, root))
  }

  method GetCohortHierarchy(table: seq<Cohort>, parentId: string, ghost path: set<string> := {parentId})
    returns (hierarchy: seq<Node>)
    requires UniqueIds(table) && OffCycles(Tree(table), parentId) && OnTheWay(Tree(table), parentId, path)
    ensures ListsBelow(Tree(table), parentId, hierarchy) && Placed(table, parentId, hierarchy)
    decreases Tree(table).Keys - path
  {
    var childData := Children(table, parentId);
    ChildrenAreIn(table, parentId);
    hierarchy := [];
    for k := 0 to |childData|
      invariant Built(table, childData, k, hierarchy)
    {
      var data := childData[k];
      StepDown(Tree(table), parentId, path, data.cohortId);
      var childHierarchy := GetCohortHierarchy(table, data.cohortId, path + {data.cohortId});
      BuiltOneMore(table, parentId, k, hierarchy, childHierarchy);
      hierarchy := hierarchy + [Node(data, childHierarchy)];
    }
    BuiltAll(table, parentId, hierarchy);
  }

  predicate IsChild(m: Parents, c: string, root: string) {
    c in m && m[c] == Some(root)
  }

  lemma ChildrenAreIn(table: seq<Cohort>, root: string)
    requires UniqueIds(table)
    ensures var children := Children(table, root);
      UniqueIds(children) && forall i :: 0 <= i < |children| ==> IsChild(Tree(table), children[i].cohortId, root)
  {
    var children := Children(table, root);
    ChildrenAre(table, root);
    TreeHas(table);
    forall i | 0 <= i < |children| ensures IsChild(Tree(table), children[i].cohortId, root) {
      assert children[i] in table;
    }
  }

  lemma BuiltOneMore(table: seq<Cohort>, root: string, k: nat, trees: seq<Node>, below: seq<Node>)
    requires UniqueIds(table) && OffCycles(Tree(table), root)
    requires k < |Children(table, root)| && Built(table, Children(table, root), k, trees)
    requires var c := Children(table, root)[k].cohortId; ListsBelow(Tree(table), c, below) && Placed(table, c, below)
    ensures Built(table, Children(table, root), k + 1, trees + [Node(Children(table, root)[k], below)])
  {
    ChildrenAreIn(table, root);
    ListsOneMore(Tree(table), root, Children(table, root), k, Ids(trees), Ids(below));
    IdsAppend(trees, Node(Children(table, root)[k], below));
  }

  lemma BuiltAll(table: seq<Cohort>, root: string, trees: seq<Node>)
    requires UniqueIds(table) && Built(table, Children(table, root), |Children(table, root)|, trees)
    ensures ListsBelow(Tree(table), root, trees) && Placed(table, root, trees)
  {
    forall x ensures multiset(Ids(trees))[x] == One(Below(Tree(table), x, root)) {
      UnderAll(table, root, x);
    }
  }

  lemma ChildOffCycles(m: Parents, root: string, c: string)
    requires OffCycles(m, root) && IsChild(m, c, root)
    ensures OffCycles(m, c)
  {
    assert Up(m, Some(c), 1) == Some(root);
    forall n: nat | n > 0 ensures Up(m, Some(c), n) != Some(c) {
      UpAdd(m, Some(c), n, 1);
      UpAdd(m, Some(c), 1, n);
    }
  }

  /** A child is not on the way up from its parent, so the way down goes on through new nodes. */
  lemma StepDown(m: Parents, root: string, path: set<string>, c: string)
    requires OffCycles(m, root) && OnTheWay(m, root, path) && IsChild(m, c, root)
    ensures c !in path && OnTheWay(m, c, path + {c}) && OffCycles(m, c)
  {
    ChildOffCycles(m, root, c);
    assert Up(m, Some(c), 1) == Some(root);
    forall y | y in path ensures OnChain(m, c, y) && y != c {
      var n: nat :| Up(m, Some(root), n) == Some(y);
      UpAdd(m, Some(c), 1, n);
      assert Up(m, Some(c), 1 + n) == Some(y);
    }
    assert Up(m, Some(c), 0) == Some(c);
  }

  /** A chain meets its root once: two children of one root are not on one chain. */
  lemma OneChild(m: Parents, x: string, root: string, a: nat, b: nat)
    requires OffCycles(m, root) && Up(m, Some(x), a) == Some(root) && Up(m, Some(x), b) == Some(root)
    ensures a == b
  {
    var lo, hi := if a < b then a else b, if a < b then b else a;
    if lo < hi {
      UpAdd(m, Some(x), lo, hi - lo);
    }
  }

  lemma UnderIsUp(m: Parents, x: string, c: string) returns (n: nat)
    requires Under(m, x, c) && c in m
    ensures Up(m, Some(x), n) == Some(c) && x in m
  {
    n := 0;
    if x != c {
      n :| n > 0 && Up(m, Some(x), n) == Some(c);
    }
  }

  lemma Apart(m: Parents, root: string, x: string, c: string, d: string)
    requires OffCycles(m, root) && IsChild(m, c, root) && IsChild(m, d, root)
    requires Under(m, x, c) && Under(m, x, d)
    ensures c == d
  {
    var a := UnderIsUp(m, x, c);
    var b := UnderIsUp(m, x, d);
    UpAdd(m, Some(x), a, 1);
    UpAdd(m, Some(x), b, 1);
    assert Up(m, Some(c), 1) == Some(root) && Up(m, Some(d), 1) == Some(root);
    OneChild(m, x, root, a + 1, b + 1);
  }

  lemma ListsOneMore(m: Parents, root: string, children: seq<Cohort>, k: nat, ids: seq<string>, below: seq<string>)
    requires k < |children| && OffCycles(m, root) && UniqueIds(children) && ListsFirst(m, children, k, ids)
    requires forall i :: 0 <= i < |children| ==> IsChild(m, children[i].cohortId, root)
    requires forall x :: multiset(below)[x] == One(Below(m, x, children[k].cohortId))
    ensures ListsFirst(m, children, k + 1, ids + [children[k].cohortId] + below)
  {
    var c := children[k].cohortId;
    ChildOffCycles(m, root, c);
    forall x ensures multiset(ids + [c] + below)[x] == One(UnderFirst(m, x, children, k + 1)) {
      assert multiset(ids + [c] + below)[x] == multiset(ids)[x] + One(x == c) + multiset(below)[x];
      if Under(m, x, c) && UnderFirst(m, x, children, k) {
        var i :| 0 <= i < k && Under(m, x, children[i].cohortId);
        Apart(m, root, x, children[i].cohortId, c);
      }
      assert UnderFirst(m, x, children, k + 1) <==> UnderFirst(m, x, children, k) || Under(m, x, c);
    }
  }

  lemma UnderChild(m: Parents, root: string, x: string, c: string)
    requires c in m && m[c] == Some(root) && Under(m, x, c)
    ensures Below(m, x, root)
  {
    var n := UnderIsUp(m, x, c);
    UpAdd(m, Some(x), n, 1);
    assert Up(m, Some(c), 1) == Some(root);
    assert Up(m, Some(x), n + 1) == Some(root);
  }

  /** The way up from `x` to the root ends with a step from a child of the root. */
  lemma ChildAbove(m: Parents, root: string, x: string) returns (c: string)
    requires Below(m, x, root)
    ensures c in m && m[c] == Some(root) && Under(m, x, c)
  {
    var n: nat :| n > 0 && Up(m, Some(x), n) == Some(root);
    UpAdd(m, Some(x), n - 1, 1);
    c := Up(m, Some(x), n - 1).value;
    assert ParentOf(m, c) == Some(root);
    assert n > 1 ==> Below(m, x, c);
  }

  lemma UnderAll(table: seq<Cohort>, root: string, x: string)
    requires UniqueIds(table)
    ensures var m, children := Tree(table), Children(table, root);
      UnderFirst(m, x, children, |children|) <==> Below(m, x, root)
  {
    var m, children := Tree(table), Children(table, root);
    ChildrenAreIn(table, root);
    if UnderFirst(m, x, children, |children|) {
      var i :| 0 <= i < |children| && Under(m, x, children[i].cohortId);
      UnderChild(m, root, x, children[i].cohortId);
    }
    if Below(m, x, root) {
      var c := ChildAbove(m, root, x);
      var i := ChildAt(table, root, c);
    }
  }

  lemma ChildAt(table: seq<Cohort>, root: string, c: string) returns (i: nat)
    requires UniqueIds(table) && IsChild(Tree(table), c, root)
    ensures i < |Children(table, root)| && Children(table, root)[i].cohortId == c
  {
    ChildrenAre(table, root);
    TreeHas(table);
    var j :| 0 <= j < |table| && table[j].cohortId == c;
    assert table[j] in Children(table, root);
    i :| 0 <= i < |Children(table, root)| && Children(table, root)[i] == table[j];
  }

  // ---------------------------------------------------------------- when the recursion ends

  /** A call goes one level deeper exactly when one of its calls for the children goes as deep. */
  lemma DeeperIff(table: seq<Cohort>, root: string, depth: nat)
    requires UniqueIds(table)
    ensures GetsTo(Tree(table), root, depth + 1)
            <==> exists c :: c in Children(table, root) && GetsTo(Tree(table), c.cohortId, depth)
  {
    var m := Tree(table);
    if GetsTo(m, root, depth + 1) {
      var x :| Up(m, Some(x), depth + 1) == Some(root);
      var c := LastBelow(m, x, root, depth);
      var i := ChildAt(table, root, c);
      assert GetsTo(m, Children(table, root)[i].cohortId, depth);
    }
    ChildrenAreIn(table, root);
    forall c | c in Children(table, root) && GetsTo(m, c.cohortId, depth) ensures GetsTo(m, root, depth + 1) {
      OneDeeper(m, c.cohortId, root, depth);
    }
  }

  lemma LastBelow(m: Parents, x: string, root: string, depth: nat) returns (c: string)
    requires Up(m, Some(x), depth + 1) == Some(root)
    ensures IsChild(m, c, root) && Up(m, Some(x), depth) == Some(c)
  {
    UpAdd(m, Some(x), depth, 1);
    c := Up(m, Some(x), depth).value;
    assert ParentOf(m, c) == Some(root);
  }

  lemma OneDeeper(m: Parents, c: string, root: string, depth: nat)
    requires IsChild(m, c, root) && GetsTo(m, c, depth)
    ensures GetsTo(m, root, depth + 1)
  {
    var x :| Up(m, Some(x), depth) == Some(c);
    UpAdd(m, Some(x), depth, 1);
    assert Up(m, Some(c), 1) == Some(root);
    assert Up(m, Some(x), depth + 1) == Some(root);
  }

  /** Off cycles the nodes on a way down are all different. */
  lemma WayIsDistinct(m: Parents, x: string, root: string, n: nat, i: nat, j: nat)
    requires OffCycles(m, root) && Up(m, Some(x), n) == Some(root) && i < j <= n
    ensures Up(m, Some(x), i) != Up(m, Some(x), j)
  {
    if Up(m, Some(x), i) == Up(m, Some(x), j) {
      UpAdd(m, Some(x), i, n - i);
      UpAdd(m, Some(x), j, n - i);
      UpAdd(m, Some(x), n, j - i);
    }
  }

  lemma {:induction false} WayIsShort(m: Parents, x: string, root: string, n: nat, k: nat)
    requires OffCycles(m, root) && Up(m, Some(x), n) == Some(root) && k <= n
    ensures |Seen(m, x, k)| == k && Seen(m, x, k) <= m.Keys
    decreases k
  {
    if k > 0 {
      WayIsShort(m, x, root, n, k - 1);
      var y := Up(m, Some(x), k - 1);
      UpAdd(m, Some(x), k - 1, n - k + 1);
      UpAdd(m, y, 1, n - k);
      forall i: nat | i < k - 1 ensures Up(m, Some(x), i) != y {
        WayIsDistinct(m, x, root, n, i, k - 1);
      }
      SeenAt(m, x, k - 1, y.value);
    }
  }

  lemma {:induction false} RoundAgain(m: Parents, root: string, n: nat, times: nat)
    requires Up(m, Some(root), n) == Some(root)
    ensures Up(m, Some(root), n * times) == Some(root)
  {
    if times > 0 {
      RoundAgain(m, root, n, times - 1);
      UpAdd(m, Some(root), n * (times - 1), n);
      assert n * times == n * (times - 1) + n;
    }
  }

  /** The recursion ends if and only if the root is on no cycle; then it is never deeper than the table is long. */
  lemma RecursionEndsIff(m: Parents, root: string)
    ensures (exists depth: nat :: !GetsTo(m, root, depth)) <==> OffCycles(m, root)
    ensures OffCycles(m, root) ==> !GetsTo(m, root, |m| + 1)
  {
    if OffCycles(m, root) {
      forall x ensures Up(m, Some(x), |m| + 1) != Some(root) {
        if Up(m, Some(x), |m| + 1) == Some(root) {
          WayIsShort(m, x, root, |m| + 1, |m| + 1);
          SubsetIsSmaller(Seen(m, x, |m| + 1), m.Keys);
        }
      }
      assert !GetsTo(m, root, |m| + 1);
    } else {
      var n: nat :| n > 0 && Up(m, Some(root), n) == Some(root);
      forall depth: nat ensures GetsTo(m, root, depth) {
        RoundAgain(m, root, n, depth);
        UpAdd(m, Some(root), n * depth - depth, depth);
        var x := Up(m, Some(root), n * depth - depth);
        assert x.Some? && Up(m, Some(x.value), depth) == Some(root);
      }
    }
  }

  lemma {:induction false} SubsetIsSmaller(a: set<string>, b: set<string>)
    requires a <= b
    ensures |a| <= |b|
  {
    if a != {} {
      var x :| x in a;
      SubsetIsSmaller(a - {x}, b - {x});
    }
  }
}
