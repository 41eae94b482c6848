/**
 The tenant hierarchy under create, update and delete requests, each taken as one step: it stays a
 forest, but for three kinds of requests, and names stay unique, but for the empty one. Bodies are
 written as they come, with the columns they name, so that an update can rename a tenant. Ids are
 texts in a request and uuid values in the database: rows are found by the value, but the checks of an
 update compare texts.
 */
module TenantForest {
  import opened JsValues
  import opened ParentChains

  /** A row; its own id, under which the table keeps it, and its parent's are in the database's spelling. */
  datatype Tenant = Tenant(name: string, parent: Option<string>)

  type Tenants = map<string, Tenant>

  /** The text the database gives back for an id that was given to it in any of its spellings. */
  type Spelling = string -> string

  ghost predicate IsSpelling(canon: Spelling) {
    forall id :: canon(canon(id)) == canon(id)
  }

  /** What the table holds is in the database's spelling. */
  predicate Stored(canon: Spelling, m: Tenants) {
    forall t :: t in m ==> canon(t) == t && (m[t].parent.Some? ==> canon(m[t].parent.value) == m[t].parent.value)
  }

  /** A field of a request body: left out, null, or given. */
  datatype Field = Absent | Null | Id(id: string)

  datatype Request =
    | Create(ownId: Option<string>, generated: string, name: string, parent: Field)
    | Update(id: string, newId: Option<string>, newName: Option<string>, parent: Field)
    | Delete(id: string)

  datatype Reply = Success | Conflict | NotFound | ServerError

  function Tree(m: Tenants): Parents {
    map t | t in m :: m[t].parent
  }

  predicate NameTaken(m: Tenants, name: string, but: set<string>) {
    exists t :: t in m && t !in but && m[t].name == name
  }

  predicate UniqueNames(m: Tenants) {
    forall t :: t in m ==> !NameTaken(m, m[t].name, {t})
  }

  /** Climbing from `p` gets to the top without meeting `t`. */
  ghost predicate ReachesTop(m: Parents, p: string, t: string) {
    exists n: nat :: Up(m, Some(p), n) == None && Avoids(m, Some(p), n, t)
  }

  /** The hierarchy as a walk from this text meets it: the text first, then the rows above the one it finds. */
  function WalkedFrom(canon: Spelling, m: Tenants, p: string): Parents {
    Tree(m)[p := ParentOf(Tree(m), canon(p))]
  }

  function NewParent(canon: Spelling, before: Option<string>, field: Field): Option<string> {
    match field
    case Absent => before
    case Null => None
    case Id(p) => Some(canon(p))
  }

  /** The id a body writes: its own if it brings one, else the other. */
  function Target(id: Option<string>, other: string): string {
    if id.Some? then id.value else other
  }

  predicate HasChildren(m: Tenants, id: string) {
    exists t :: t in m && m[t].parent == Some(id)
  }

  /** All rows but these are as they were. */
  predicate SameBesides(before: Tenants, after: Tenants, written: set<string>) {
    && after.Keys - written == before.Keys - written
    && forall t :: t in before && t in after && t !in written ==> after[t] == before[t]
  }

  /** `save` updates the row whose id has the body's text, and inserts otherwise; a second row with an id is refused. */
  ghost function Created(canon: Spelling, m: Tenants, id: string, name: string, parent: Field): (Tenants, Reply) {
    if NameTaken(m, name, {}) then (m, Conflict)
    else if parent.Id? && canon(parent.id) !in m then (m, NotFound)
    else if canon(id) in m && canon(id) != id then (m, ServerError)
    else
      (m[canon(id) := Tenant(name, NewParent(canon, if id in m then m[id].parent else None, parent))], Success)
  }

  /** The write of an update: the row's id is a column like any other, and a second row with an id is refused. */
  function Renamed(m: Tenants, id: string, newId: string, row: Tenant): (Tenants, Reply) {
    if newId != id && newId in m then (m, ServerError) else ((m - {id})[newId := row], Success)
  }

  ghost function Updated(
    canon: Spelling, m: Tenants, id: string, newId: Option<string>, name: Option<string>,
    parent: Field): (Tenants, Reply)
  {
    if canon(id) !in m then (m, NotFound)
    else if name.Some? && name.value != "" && NameTaken(m, name.value, {id}) then (m, Conflict)
    else if parent == Id(id) then (m, Conflict)
    else if parent.Id? && canon(parent.id) !in m then (m, NotFound)
    else if parent.Id? && !ReachesTop(WalkedFrom(canon, m, parent.id), parent.id, id) then (m, Conflict)
    else Renamed(m, canon(id), canon(Target(newId, id)), NewRow(canon, m[canon(id)], name, parent))
  }

  function NewRow(canon: Spelling, before: Tenant, name: Option<string>, parent: Field): Tenant {
    Tenant(if name.Some? then name.value else before.name, NewParent(canon, before.parent, parent))
  }

  ghost function Deleted(canon: Spelling, m: Tenants, id: string): (Tenants, Reply) {
    if canon(id) !in m || HasChildren(m, canon(id)) then (m, Conflict) else (m - {canon(id)}, Success)
  }

  ghost function Apply(canon: Spelling, m: Tenants, req: Request): (Tenants, Reply) {
    match req
    case Create(id, generated, name, parent) => Created(canon, m, Target(id, generated), name, parent)
    case Update(id, newId, name, parent) => Updated(canon, m, id, newId, name, parent)
    case Delete(id) => Deleted(canon, m, id)
  }

  lemma ApplyKeepsStored(canon: Spelling, m: Tenants, req: Request)
    requires IsSpelling(canon) && Stored(canon, m)
    ensures Stored(canon, Apply(canon, m, req).0)
  {
  }

  // ---------------------------------------------------------------- the service

  class TenantService {
    const canon: Spelling
    var tenants: Tenants

    ghost predicate Valid()
      reads this
    {
      IsSpelling(canon) && Stored(canon, tenants)
    }

    constructor (canon: Spelling)
      requires IsSpelling(canon)
      ensures Valid() && this.canon == canon && tenants == map[]
    {
      this.canon, this.tenants := canon, map[];
    }

    /** A tenant of the name other than those given; the one `findOne` gives while names are unique. */
    method FindByName(name: string, but: set<string>) returns (taken: bool)
      ensures taken == NameTaken(tenants, name, but)
    {
      var rest := tenants.Keys;
      taken := false;
      while rest != {} && !taken
        invariant rest <= tenants.Keys
        invariant NameTaken(tenants, name, but) <==>
                  taken || exists t :: t in rest && t !in but && tenants[t].name == name
        decreases |rest|
      {
        var t :| t in rest;
        taken := t !in but && tenants[t].name == name;
        rest := rest - {t};
      }
    }

    /**
     The walk up from the proposed parent, with the set of texts met so far. It ends on any table, also
     on one that has a cycle already, and finds the change circular unless the walk gets to the top
     without meeting the tenant's text.
     */
    method IsCircular(id: string, parent: string) returns (circular: bool)
      requires Valid()
      ensures circular == !ReachesTop(WalkedFrom(canon, tenants, parent), parent, id)
    {
      var current, visited := parent, {id};
      ghost var n, tree := 0, WalkedFrom(canon, tenants, parent);
      while current !in visited
        invariant Up(tree, Some(parent), n) == Some(current) && (current == parent || canon(current) == current)
        invariant visited == {id} + Seen(tree, parent, n) && Avoids(tree, Some(parent), n, id)
        decreases tenants.Keys + {parent} - visited
      {
        visited := visited + {current};
        UpAdd(tree, Some(parent), n, 1);
        assert Up(tree, Some(parent), n + 1) == ParentOf(tree, current) == ParentOf(Tree(tenants), canon(current));
        assert Seen(tree, parent, n + 1) == Seen(tree, parent, n) + {current};
        var found := canon(current);
        if found !in tenants || tenants[found].parent == None {
          assert Up(tree, Some(parent), n + 1) == None && Avoids(tree, Some(parent), n + 1, id);
          return false;
        }
        current := tenants[found].parent.value;
        n := n + 1;
      }
      ComesBack(tree, parent, id, n, current);
      return true;
    }

    method CreateTenants(id: Option<string>, generated: string, name: string, parent: Field) returns (reply: Reply)
      requires Valid()
      modifies this
      ensures Valid() && (tenants, reply) == Created(canon, old(tenants), Target(id, generated), name, parent)
    {
      ApplyKeepsStored(canon, tenants, Create(id, generated, name, parent));
      var taken := FindByName(name, {});
      if taken {
        return Conflict;
      }
      if parent.Id? && canon(parent.id) !in tenants {
        return NotFound;
      }
      var text := Target(id, generated);
      var key := canon(text);
      if key in tenants && key != text {
        return ServerError;
      }
      var before := if key in tenants then tenants[key].parent else None;
      tenants := tenants[key := Tenant(name, NewParent(canon, before, parent))];
      return Success;
    }

    method UpdateTenants(id: string, newId: Option<string>, name: Option<string>, parent: Field) returns (reply: Reply)
      requires Valid()
      modifies this
      ensures Valid() && (tenants, reply) == Updated(canon, old(tenants), id, newId, name, parent)
    {
      ApplyKeepsStored(canon, tenants, Update(id, newId, name, parent));
      var found := canon(id);
      if found !in tenants {
        return NotFound;
      }
      if name.Some? && name.value != "" {
        var taken := FindByName(name.value, {id});
        if taken {
          return Conflict;
        }
      }
      if parent.Id? {
        if parent.id == id {
          return Conflict;
        }
        if canon(parent.id) !in tenants {
          return NotFound;
        }
        var circular := IsCircular(id, parent.id);
        if circular {
          return Conflict;
        }
      }
      var before, key := tenants[found], canon(Target(newId, id));
      if key != found && key in tenants {
        return ServerError;
      }
      tenants := (tenants - {found})[key :=
        Tenant(if name.Some? then name.value else before.name, NewParent(canon, before.parent, parent))];
      return Success;
    }

    method DeleteTenants(id: string) returns (reply: Reply)
      requires Valid()
      modifies this
      ensures Valid() && (tenants, reply) == Deleted(canon, old(tenants), id)
      ensures reply == Success <==>
        canon(id) in old(tenants) && forall t :: t in old(tenants) ==> old(tenants)[t].parent != Some(canon(id))
      ensures reply == Success ==> canon(id) !in tenants && SameBesides(old(tenants), tenants, {canon(id)})
      ensures reply != Success ==> reply == Conflict && tenants == old(tenants)
    {
      ApplyKeepsStored(canon, tenants, Delete(id));
      var found := canon(id);
      if found !in tenants || exists t :: t in tenants && tenants[t].parent == Some(found) {
        return Conflict;
      }
      tenants := tenants - {found};
      return Success;
    }
  }

  /** A walk that meets the tenant, or a node it met before, does not get to the top without meeting the tenant. */
  lemma ComesBack(m: Parents, p: string, t: string, n: nat, current: string)
    requires Up(m, Some(p), n) == Some(current) && current in {t} + Seen(m, p, n)
    ensures !ReachesTop(m, p, t)
  {
    forall e: nat | Up(m, Some(p), e) == None ensures !Avoids(m, Some(p), e, t) {
      if current == t {
        if e <= n {
          EndedStays(m, Some(p), e, n);
        }
      } else {
        SeenAt(m, p, n, current);
        var k: nat :| k < n && Up(m, Some(p), k) == Some(current);
        LoopNeverEnds(m, Some(p), k, n, e);
      }
    }
  }

  // ---------------------------------------------------------------- the hierarchy stays a forest

  lemma ClimbIsExact(m: Parents, p: string, t: string)
    requires Forest(m) && p in m
    ensures ReachesTop(m, p, t) <==> !OnChain(m, p, t)
  {
    ChainEnds(m, p);
    var n: nat :| Up(m, Some(p), n) == None;
    if ReachesTop(m, p, t) {
      var e: nat :| Up(m, Some(p), e) == None && Avoids(m, Some(p), e, t);
      AvoidedForGood(m, p, e, t);
    }
  }

  /**
   In a forest the walk rejects exactly the text it starts from and the tenants above the row that text
   finds: with both ids in the database's spelling, the tenant itself and its descendants.
   */
  lemma WalkIsExact(canon: Spelling, m: Tenants, p: string, t: string)
    requires IsSpelling(canon) && Stored(canon, m) && Forest(Tree(m)) && canon(p) in m
    ensures ReachesTop(WalkedFrom(canon, m, p), p, t)
            <==> t != p && !(t != canon(p) && OnChain(Tree(m), canon(p), t))
    ensures canon(p) == p ==> (ReachesTop(WalkedFrom(canon, m, p), p, t) <==> !OnChain(Tree(m), p, t))
  {
    if canon(p) == p {
      SameParentSameTree(Tree(m), p);
      ClimbIsExact(Tree(m), p, t);
      assert Up(Tree(m), Some(p), 0) == Some(p);
    } else {
      OtherTextIsExact(canon, m, p, t);
    }
  }

  /** From its first step on, the climb from `p` in one hierarchy is the climb from `q` in the other. */
  ghost predicate SameAbove(walked: Parents, p: string, tree: Parents, q: string) {
    forall n: nat :: n > 0 ==> Up(walked, Some(p), n) == Up(tree, Some(q), n)
  }

  lemma OtherTextClimbs(canon: Spelling, m: Tenants, p: string, n: nat)
    requires Stored(canon, m) && NoDangling(Tree(m)) && canon(p) in m && p !in m && n > 0
    ensures Up(WalkedFrom(canon, m, p), Some(p), n) == Up(Tree(m), Some(canon(p)), n)
  {
    var tree, walked, q := Tree(m), WalkedFrom(canon, m, p), canon(p);
    NeverMeetsStranger(tree, q, p);
    forall k: nat | k < n - 1 ensures Up(tree, tree[q], k) != Some(p) {
      assert Up(tree, Some(q), k + 1) == Up(tree, tree[q], k);
    }
    assert SameBut(tree, walked, p);
    SameUntil(tree, walked, p, tree[q], n - 1);
  }

  lemma OtherTextIsExact(canon: Spelling, m: Tenants, p: string, t: string)
    requires Stored(canon, m) && Forest(Tree(m)) && canon(p) in m && canon(p) != p
    ensures ReachesTop(WalkedFrom(canon, m, p), p, t)
            <==> t != p && !(t != canon(p) && OnChain(Tree(m), canon(p), t))
  {
    var tree, walked, q := Tree(m), WalkedFrom(canon, m, p), canon(p);
    forall n: nat | n > 0 ensures Up(walked, Some(p), n) == Up(tree, Some(q), n) {
      OtherTextClimbs(canon, m, p, n);
    }
    if ReachesTop(walked, p, t) {
      var n: nat :| Up(walked, Some(p), n) == None && Avoids(walked, Some(p), n, t);
      AvoidedByOther(tree, walked, p, q, n, t);
    } else if t != p {
      ChainEnds(tree, q);
      var n: nat :| Up(tree, Some(q), n) == None;
      assert n > 0;
      var k: nat :| k < n && Up(walked, Some(p), k) == Some(t);
      assert k > 0 && Up(tree, Some(q), k) == Some(t);
    }
  }

  lemma AvoidedByOther(tree: Parents, walked: Parents, p: string, q: string, n: nat, t: string)
    requires Up(walked, Some(p), n) == None && Avoids(walked, Some(p), n, t) && SameAbove(walked, p, tree, q)
    ensures t != p && (t != q ==> !OnChain(tree, q, t))
  {
    assert n > 0 && Up(walked, Some(p), 0) == Some(p);
    if t != q {
      AvoidedForGood(tree, q, n, t);
    }
  }

  /** A create request that names an existing tenant, in its own spelling, and a parent below it. */
  ghost predicate MovesUnderItself(canon: Spelling, m: Tenants, req: Request) {
    && req.Create? && req.parent.Id? && Target(req.ownId, req.generated) in m && canon(req.parent.id) in m
    && OnChain(Tree(m), canon(req.parent.id), Target(req.ownId, req.generated)) && !NameTaken(m, req.name, {})
  }

  /** An update request that is accepted and gives another id to a tenant that has children. */
  ghost predicate LeavesOrphans(canon: Spelling, m: Tenants, req: Request) {
    && req.Update? && canon(Target(req.newId, req.id)) != canon(req.id) && HasChildren(m, canon(req.id))
    && Apply(canon, m, req).1 == Success
  }

  /** The tenant's text is not its own in the database, or the parent's is another text for the tenant's. */
  predicate SpelledPast(canon: Spelling, id: string, parent: string) {
    canon(id) != id || (canon(parent) == id && parent != id)
  }

  /** An update request so spelled that is accepted and moves a tenant under itself. */
  ghost predicate SlipsUnderItself(canon: Spelling, m: Tenants, req: Request) {
    && req.Update? && req.parent.Id? && SpelledPast(canon, req.id, req.parent.id)
    && OnChain(Tree(m), canon(req.parent.id), canon(req.id)) && Apply(canon, m, req).1 == Success
  }

  ghost predicate Breaks(canon: Spelling, m: Tenants, req: Request) {
    MovesUnderItself(canon, m, req) || LeavesOrphans(canon, m, req) || SlipsUnderItself(canon, m, req)
  }

  lemma TreeOfUpdate(m: Tenants, id: string, t: Tenant)
    ensures Tree(m[id := t]) == Tree(m)[id := t.parent]
    ensures Tree(m - {id}) == Tree(m) - {id}
  {
  }

  lemma SameParentSameTree(m: Parents, id: string)
    requires id in m
    ensures m[id := m[id]] == m
  {
  }

  /** A row written under a key, with this parent. */
  lemma WriteKeepsForestIff(m: Tenants, key: string, row: Tenant)
    requires Forest(Tree(m)) && (row.parent.Some? ==> row.parent.value in m)
    ensures Forest(Tree(m[key := row])) <==> !(row.parent.Some? && OnChain(Tree(m), row.parent.value, key))
  {
    TreeOfUpdate(m, key, row);
    if row.parent == None {
      SetRootKeepsForest(Tree(m), key);
    } else {
      SetParentKeepsForestIff(Tree(m), key, row.parent.value);
    }
  }

  /** A tenant's own parent is not below it. */
  lemma ParentIsAbove(m: Parents, id: string)
    requires Acyclic(m) && id in m && m[id].Some?
    ensures !OnChain(m, m[id].value, id)
  {
    forall n: nat ensures Up(m, m[id], n) != Some(id) {
      assert Up(m, Some(id), n + 1) == Up(m, m[id], n);
    }
  }

  /** Setting a tenant's row under a new id, which leaves its children without a parent. */
  lemma RenameKeepsForestIff(m: Tenants, id: string, newId: string, row: Tenant)
    requires Forest(Tree(m)) && id in m && newId !in m && (row.parent.Some? ==> row.parent.value in m)
    ensures Forest(Tree((m - {id})[newId := row])) <==> !HasChildren(m, id) && row.parent != Some(id)
  {
    var rest := m - {id};
    TreeOfUpdate(m, id, row);
    TreeOfUpdate(rest, newId, row);
    if HasChildren(m, id) || row.parent == Some(id) {
      OrphanDangles(m, id, newId, row);
    } else {
      RemoveLeafKeepsForest(Tree(m), id);
      if row.parent.Some? {
        SetParentKeepsForestIff(Tree(rest), newId, row.parent.value);
        NeverMeetsStranger(Tree(rest), row.parent.value, newId);
      } else {
        SetRootKeepsForest(Tree(rest), newId);
      }
    }
  }

  lemma OrphanDangles(m: Tenants, id: string, newId: string, row: Tenant)
    requires Acyclic(Tree(m)) && id in m && newId !in m && (HasChildren(m, id) || row.parent == Some(id))
    ensures !NoDangling(Tree((m - {id})[newId := row]))
  {
    var after := (m - {id})[newId := row];
    if row.parent == Some(id) {
      assert newId in after && Tree(after)[newId] == Some(id) && id !in after;
    } else {
      var t :| t in m && m[t].parent == Some(id);
      NotItsOwnParent(Tree(m), id);
      assert t in after && Tree(after)[t] == Some(id) && id !in after;
    }
  }

  lemma NotItsOwnParent(m: Parents, id: string)
    requires Acyclic(m) && id in m
    ensures m[id] != Some(id)
  {
    assert Up(m, Some(id), 1) == Up(m, m[id], 0) == m[id];
  }

  lemma SameKeySameMap(m: Tenants, id: string, row: Tenant)
    ensures (m - {id})[id := row] == m[id := row]
  {
  }

  /** Whoever is above a node other than itself has a child. */
  lemma AboveHasChild(m: Tenants, p: string, id: string)
    requires NoDangling(Tree(m)) && p in m && p != id && OnChain(Tree(m), p, id)
    ensures HasChildren(m, id)
  {
    var n: nat :| Up(Tree(m), Some(p), n) == Some(id);
    assert n > 0;
    UpAdd(Tree(m), Some(p), n - 1, 1);
    UpStaysIn(Tree(m), p, n - 1);
    var c := Up(Tree(m), Some(p), n - 1).value;
    assert ParentOf(Tree(m), c) == Some(id);
    assert c in m && m[c].parent == Some(id);
  }

  /** An accepted update breaks the hierarchy by its parent or by its new id. */
  lemma AcceptedUpdateKeepsForestIff(m: Tenants, id: string, key: string, row: Tenant)
    requires Forest(Tree(m)) && id in m && (key == id || key !in m) && (row.parent.Some? ==> row.parent.value in m)
    ensures Forest(Tree((m - {id})[key := row]))
            <==> !(key != id && HasChildren(m, id)) && !(row.parent.Some? && OnChain(Tree(m), row.parent.value, id))
  {
    if key == id {
      SameKeySameMap(m, id, row);
      WriteKeepsForestIff(m, id, row);
    } else {
      RenameKeepsForestIff(m, id, key, row);
      if row.parent.Some? {
        assert Up(Tree(m), Some(id), 0) == Some(id);
        if row.parent.value != id && OnChain(Tree(m), row.parent.value, id) {
          AboveHasChild(m, row.parent.value, id);
        }
      }
    }
  }

  /** What an accepted update got past: only a text that the walk does not meet. */
  lemma AcceptedIsSpelledPast(canon: Spelling, m: Tenants, p: string, id: string)
    requires IsSpelling(canon) && Stored(canon, m) && Forest(Tree(m)) && canon(p) in m && canon(id) in m && p != id
    requires ReachesTop(WalkedFrom(canon, m, p), p, id) && OnChain(Tree(m), canon(p), canon(id))
    ensures SpelledPast(canon, id, p)
  {
    WalkIsExact(canon, m, p, id);
  }

  lemma UpdateKeepsForestIff(canon: Spelling, m: Tenants, req: Request)
    requires IsSpelling(canon) && Stored(canon, m) && Forest(Tree(m)) && req.Update?
    ensures Forest(Tree(Apply(canon, m, req).0)) <==> !LeavesOrphans(canon, m, req) && !SlipsUnderItself(canon, m, req)
  {
    var id, parent := canon(req.id), req.parent;
    if Apply(canon, m, req).1 == Success {
      var key, row := canon(Target(req.newId, req.id)), NewRow(canon, m[id], req.newName, parent);
      assert m[id].parent.Some? ==> Tree(m)[id].value in m;
      AcceptedUpdateKeepsForestIff(m, id, key, row);
      if parent.Id? {
        if OnChain(Tree(m), canon(parent.id), id) {
          AcceptedIsSpelledPast(canon, m, parent.id, req.id);
        }
      } else if row.parent.Some? {
        ParentIsAbove(Tree(m), id);
      }
    }
  }

  lemma CreateKeepsForestIff(canon: Spelling, m: Tenants, req: Request)
    requires IsSpelling(canon) && Stored(canon, m) && Forest(Tree(m)) && req.Create?
    ensures Forest(Tree(Apply(canon, m, req).0)) <==> !MovesUnderItself(canon, m, req)
  {
    var text := Target(req.ownId, req.generated);
    var key := canon(text);
    if Apply(canon, m, req).1 == Success {
      var row := Tenant(req.name, NewParent(canon, if key in m then m[key].parent else None, req.parent));
      assert key in m && m[key].parent.Some? ==> Tree(m)[key].value in m;
      WriteKeepsForestIff(m, key, row);
      if row.parent.Some? {
        if key !in m {
          NeverMeetsStranger(Tree(m), row.parent.value, key);
        } else if !req.parent.Id? {
          ParentIsAbove(Tree(m), key);
        }
      }
    }
  }

  /**
   A request keeps the forest exactly when it is neither a create request that moves a tenant under
   itself, nor an update request that renames a tenant with children, nor one that moves a tenant under
   itself with an id in a spelling that the checks do not recognise.
   */
  lemma ApplyKeepsForestIff(canon: Spelling, m: Tenants, req: Request)
    requires IsSpelling(canon) && Stored(canon, m) && Forest(Tree(m))
    ensures Forest(Tree(Apply(canon, m, req).0)) <==> !Breaks(canon, m, req)
  {
    match req
    case Create(_, _, _, _) => CreateKeepsForestIff(canon, m, req);
    case Update(_, _, _, _) => UpdateKeepsForestIff(canon, m, req);
    case Delete(text) =>
      var id := canon(text);
      if id in m && !HasChildren(m, id) {
        TreeOfUpdate(m, id, m[id]);
        RemoveLeafKeepsForest(Tree(m), id);
      }
  }

  lemma NeverMeetsStranger(m: Parents, p: string, t: string)
    requires NoDangling(m) && p in m && t !in m
    ensures !OnChain(m, p, t)
  {
    forall n: nat ensures Up(m, Some(p), n) != Some(t) {
      UpStaysIn(m, p, n);
    }
  }

  /** The table after each request of a run, in order. */
  ghost function Run(canon: Spelling, m: Tenants, reqs: seq<Request>): Tenants
    decreases |reqs|
  {
    if reqs == [] then m else Run(canon, Apply(canon, m, reqs[0]).0, reqs[1..])
  }

  /** No table along the run has a cycle or a missing parent. */
  ghost predicate AlwaysForest(canon: Spelling, m: Tenants, reqs: seq<Request>)
    decreases |reqs|
  {
    Forest(Tree(m)) && (reqs != [] ==> AlwaysForest(canon, Apply(canon, m, reqs[0]).0, reqs[1..]))
  }

  /** No request of the run breaks the hierarchy when its turn comes. */
  ghost predicate NoneBreaks(canon: Spelling, m: Tenants, reqs: seq<Request>)
    decreases |reqs|
  {
    reqs != [] ==> !Breaks(canon, m, reqs[0]) && NoneBreaks(canon, Apply(canon, m, reqs[0]).0, reqs[1..])
  }

  /** Over every run the hierarchy stays a forest exactly when none of the requests is of the three kinds. */
  lemma {:induction false} RunKeepsForestIff(canon: Spelling, m: Tenants, reqs: seq<Request>)
    requires IsSpelling(canon) && Stored(canon, m) && Forest(Tree(m))
    ensures AlwaysForest(canon, m, reqs) <==> NoneBreaks(canon, m, reqs)
    decreases |reqs|
  {
    if reqs != [] {
      ApplyKeepsForestIff(canon, m, reqs[0]);
      ApplyKeepsStored(canon, m, reqs[0]);
      if Forest(Tree(Apply(canon, m, reqs[0]).0)) {
        RunKeepsForestIff(canon, Apply(canon, m, reqs[0]).0, reqs[1..]);
      }
    }
  }

  /**
   A create request creates; an update request leaves the id as it is, and gives a parent only with both
   ids in the database's spelling.
   */
  predicate KeepsTo(canon: Spelling, m: Tenants, req: Request) {
    match req
    case Create(id, generated, _, _) => canon(Target(id, generated)) !in m
    case Update(id, newId, _, parent) =>
      && canon(Target(newId, id)) == canon(id)
      && (parent.Id? ==> canon(id) == id && canon(parent.id) == parent.id)
    case Delete(_) => true
  }

  ghost predicate AllKeepTo(canon: Spelling, m: Tenants, reqs: seq<Request>)
    decreases |reqs|
  {
    reqs != [] ==> KeepsTo(canon, m, reqs[0]) && AllKeepTo(canon, Apply(canon, m, reqs[0]).0, reqs[1..])
  }

  /** Over every run whose requests keep to that, the hierarchy stays acyclic and no parent is missing. */
  lemma {:induction false} RunKeepsForest(canon: Spelling, m: Tenants, reqs: seq<Request>)
    requires IsSpelling(canon) && Stored(canon, m) && Forest(Tree(m)) && AllKeepTo(canon, m, reqs)
    ensures Forest(Tree(Run(canon, m, reqs)))
    decreases |reqs|
  {
    if reqs != [] {
      ApplyKeepsForestIff(canon, m, reqs[0]);
      ApplyKeepsStored(canon, m, reqs[0]);
      RunKeepsForest(canon, Apply(canon, m, reqs[0]).0, reqs[1..]);
    }
  }

  // Two tenants, one above the other, under a database that gives ids back in lower case.

  ghost predicate LowersCase(canon: Spelling) {
    IsSpelling(canon) && canon("a") == "a" && canon("b") == "b" && canon("A") == "a"
  }

  function Lower(id: string): string {
    if id == [] then [] else [if 'A' <= id[0] <= 'F' then id[0] - 'A' + 'a' else id[0]] + Lower(id[1..])
  }

  lemma {:induction false} LowerTwice(id: string)
    ensures Lower(Lower(id)) == Lower(id)
  {
    if id != [] {
      LowerTwice(id[1..]);
      assert Lower(id)[1..] == Lower(id[1..]);
    }
  }

  lemma LowerLowersCase()
    ensures LowersCase(Lower)
  {
    forall id ensures Lower(Lower(id)) == Lower(id) {
      LowerTwice(id);
    }
    assert Lower("a") == "a" && Lower("b") == "b" && Lower("A") == "a";
  }

  const TopAndSub: Tenants := map["a" := Tenant("top", None), "b" := Tenant("sub", Some("a"))]

  lemma TopAndSubIsForest()
    ensures Forest(Tree(TopAndSub))
  {
    var top := map["a" := Tenant("top", None)];
    assert Forest(Tree(top)) by {
      assert Up(Tree(top), Some("a"), 1) == None;
      EndsAcyclic(Tree(top));
    }
    WriteKeepsForestIff(top, "b", Tenant("sub", Some("a")));
    NeverMeetsStranger(Tree(top), "a", "b");
    assert TopAndSub == top["b" := Tenant("sub", Some("a"))];
  }

  lemma TopAboveBoth(p: string)
    requires p == "a" || p == "b"
    ensures OnChain(Tree(TopAndSub), p, "a")
  {
    assert Up(Tree(TopAndSub), Some("a"), 0) == Some("a");
    assert Up(Tree(TopAndSub), Some("b"), 1) == Some("a");
  }

  /**
   A create request that brings the id of an existing tenant is not checked for circles: two tenants
   end up above each other.
   */
  lemma CreateCanClose(canon: Spelling, name: string)
    requires LowersCase(canon) && name != "top" && name != "sub"
    ensures var r := Apply(canon, TopAndSub, Create(Some("a"), "", name, Id("b")));
      && Forest(Tree(TopAndSub)) && r.1 == Success
      && Up(Tree(r.0), Some("a"), 2) == Some("a") && !Forest(Tree(r.0))
  {
    TopAndSubIsForest();
    var after := TopAndSub["a" := Tenant(name, Some("b"))];
    assert Tree(after)["a"] == Some("b") && Tree(after)["b"] == Some("a");
    assert Up(Tree(after), Some("b"), 1) == Some("a");
    assert Up(Tree(after), Some("a"), 2) == Some("a");
  }

  /** An update request whose body brings another id renames the tenant: its child's parent is gone. */
  lemma UpdateCanOrphan(canon: Spelling, newId: string)
    requires LowersCase(canon) && canon(newId) != "a" && canon(newId) != "b"
    ensures var r := Apply(canon, TopAndSub, Update("a", Some(newId), None, Absent));
      && Forest(Tree(TopAndSub)) && r.1 == Success
      && "b" in r.0 && r.0["b"].parent == Some("a") && "a" !in r.0 && !Forest(Tree(r.0))
  {
    TopAndSubIsForest();
    assert TopAndSub["b"].parent == Some("a") && HasChildren(TopAndSub, "a");
    ApplyKeepsForestIff(canon, TopAndSub, Update("a", Some(newId), None, Absent));
  }

  /**
   An update request that spells the tenant's id in upper case finds the tenant, and the circle check
   does not: the tenant becomes its own parent, or its child's child.
   */
  lemma UpperCaseCanClose(canon: Spelling, parent: string)
    requires LowersCase(canon) && (parent == "a" || parent == "b")
    ensures var r := Apply(canon, TopAndSub, Update("A", None, None, Id(parent)));
      r.1 == Success && "a" in r.0 && r.0["a"].parent == Some(parent) && !Forest(Tree(r.0))
  {
    TopAndSubIsForest();
    NeverMeetsStranger(Tree(TopAndSub), parent, "A");
    WalkIsExact(canon, TopAndSub, parent, "A");
    TopAboveBoth(parent);
    ApplyKeepsForestIff(canon, TopAndSub, Update("A", None, None, Id(parent)));
  }

  /** So does an upper-case parent: the tenant becomes its own parent. */
  lemma UpperCaseParentCanClose(canon: Spelling)
    requires LowersCase(canon)
    ensures var r := Apply(canon, TopAndSub, Update("a", None, None, Id("A")));
      r.1 == Success && "a" in r.0 && r.0["a"].parent == Some("a") && !Forest(Tree(r.0))
  {
    TopAndSubIsForest();
    WalkIsExact(canon, TopAndSub, "A", "a");
    TopAboveBoth("a");
    ApplyKeepsForestIff(canon, TopAndSub, Update("a", None, None, Id("A")));
  }

  // ---------------------------------------------------------------- what is accepted, and what it writes

  predicate HasName(m: Tenants, t: string, name: string) {
    t in m && m[t].name == name
  }

  /** A parent that is given is written in the database's spelling, null detaches, and one left out stays. */
  predicate ParentWritten(canon: Spelling, field: Field, before: Option<string>, after: Option<string>) {
    match field
    case Id(p) => after == Some(canon(p))
    case Null => after == None
    case Absent => after == before
  }

  /**
   A tenant is deleted if and only if it is there and no row has it as its parent; then its row goes, and
   otherwise nothing changes.
   */
  lemma DeleteAcceptedIff(canon: Spelling, m: Tenants, id: string)
    ensures var r := Apply(canon, m, Delete(id)); var own := canon(id);
      && (r.1 == Success <==> own in m && forall t :: t in m ==> m[t].parent != Some(own))
      && (r.1 == Success ==> own !in r.0 && SameBesides(m, r.0, {own}))
      && (r.1 != Success ==> r == (m, Conflict))
  {
  }

  /**
   A tenant is created if and only if no tenant has the name, the parent, if given, is there, and a tenant
   that has the id already is named by the database's spelling of it. Then exactly that row is written.
   */
  lemma CreateAcceptedIff(canon: Spelling, m: Tenants, ownId: Option<string>, generated: string, name: string,
                          parent: Field)
    requires IsSpelling(canon) && Stored(canon, m)
    ensures var r := Apply(canon, m, Create(ownId, generated, name, parent));
      var text := if ownId.Some? then ownId.value else generated;
      var key := canon(text);
      && (r.1 == Conflict <==> exists t :: HasName(m, t, name))
      && (r.1 == NotFound <==> (forall t :: !HasName(m, t, name)) && parent.Id? && canon(parent.id) !in m)
      && (r.1 == Success <==>
            && (forall t :: !HasName(m, t, name)) && (parent.Id? ==> canon(parent.id) in m)
            && (key in m ==> text == key))
      && (r.1 == Success ==>
            && SameBesides(m, r.0, {key}) && key in r.0 && r.0[key].name == name
            && ParentWritten(canon, parent, if key in m then m[key].parent else None, r.0[key].parent))
      && (r.1 != Success ==> r.0 == m)
  {
    assert forall t :: HasName(m, t, name) <==> t in m && t !in {} && m[t].name == name;
  }

  /** The name is not empty, and a row other than that with the request's text for an id has it. */
  ghost predicate NameClashes(m: Tenants, id: string, newName: Option<string>) {
    newName.Some? && newName.value != "" && exists t :: HasName(m, t, newName.value) && t != id
  }

  /** The parent is the text of the id itself, or climbing from it comes upon that text or never to the top. */
  ghost predicate ParentClashes(canon: Spelling, m: Tenants, id: string, parent: Field) {
    parent.Id? && (parent.id == id || !ReachesTop(WalkedFrom(canon, m, parent.id), parent.id, id))
  }

  /**
   An update is accepted if and only if the tenant is there, no other has the name, the parent, if given, is
   there and climbing from it gets to the top without the tenant, and the new id, if given, is not another's.
   Then the tenant's row, and no other, has the name and parent given, under the id given.
   */
  lemma UpdateAcceptedIff(canon: Spelling, m: Tenants, id: string, newId: Option<string>, newName: Option<string>,
                          parent: Field)
    ensures var r := Apply(canon, m, Update(id, newId, newName, parent));
      var own, key := canon(id), canon(if newId.Some? then newId.value else id);
      && (r.1 == Success <==>
            && own in m && !NameClashes(m, id, newName)
            && (parent.Id? ==> canon(parent.id) in m) && !ParentClashes(canon, m, id, parent)
            && (key == own || key !in m))
      && (r.1 == Success ==>
            && SameBesides(m, r.0, {own, key}) && (key != own ==> own !in r.0) && key in r.0
            && r.0[key].name == (if newName.Some? then newName.value else m[own].name)
            && ParentWritten(canon, parent, m[own].parent, r.0[key].parent))
      && (r.1 != Success ==> r.0 == m)
  {
    if newName.Some? {
      assert forall t ::
        HasName(m, t, newName.value) && t != id <==> t in m && t !in {id} && m[t].name == newName.value;
    }
  }

  /** Why an update is refused: the tenant is missing, or else the name clashes, or else the parent is wrong. */
  lemma UpdateRefusedWith(canon: Spelling, m: Tenants, id: string, newId: Option<string>, newName: Option<string>,
                          parent: Field)
    ensures var reply := Apply(canon, m, Update(id, newId, newName, parent)).1;
      var lost := parent.Id? && parent.id != id && canon(parent.id) !in m;
      && (reply == NotFound <==> canon(id) !in m || (!NameClashes(m, id, newName) && lost))
      && (reply == Conflict <==>
            canon(id) in m && (NameClashes(m, id, newName) || (!lost && ParentClashes(canon, m, id, parent))))
  {
    if newName.Some? {
      assert forall t ::
        HasName(m, t, newName.value) && t != id <==> t in m && t !in {id} && m[t].name == newName.value;
    }
  }

  /** In a forest, with both ids in the database's spelling, a parent clashes if and only if the tenant is above it. */
  lemma ParentClashesIff(canon: Spelling, m: Tenants, id: string, p: string)
    requires IsSpelling(canon) && Stored(canon, m) && Forest(Tree(m)) && p in m
    ensures ParentClashes(canon, m, id, Id(p)) <==> OnChain(Tree(m), p, id)
  {
    assert canon(p) == p;
    WalkIsExact(canon, m, p, id);
    if p == id {
      assert Up(Tree(m), Some(p), 0) == Some(id);
    }
  }

  // ---------------------------------------------------------------- names

  lemma WriteKeepsNamesIff(m: Tenants, id: string, key: string, row: Tenant)
    requires UniqueNames(m) && id in m && (key == id || key !in m)
    ensures UniqueNames((m - {id})[key := row]) <==> !NameTaken(m, row.name, {id})
  {
    var after := (m - {id})[key := row];
    assert forall t :: t in after && t != key ==> t in m && t != id && after[t] == m[t];
    if NameTaken(m, row.name, {id}) {
      var t :| t in m && t !in {id} && m[t].name == row.name;
      assert t in after && t !in {key} && after[t].name == after[key].name;
    } else {
      forall t | t in after ensures !NameTaken(after, after[t].name, {t}) {
        assert t != key ==> !NameTaken(m, m[t].name, {t});
      }
    }
  }

  /** A request keeps names unique exactly when it is not an accepted update to an empty name another tenant has. */
  lemma ApplyKeepsNamesIff(canon: Spelling, m: Tenants, req: Request)
    requires IsSpelling(canon) && Stored(canon, m) && UniqueNames(m)
    ensures UniqueNames(Apply(canon, m, req).0) <==>
      !(req.Update? && Apply(canon, m, req).1 == Success && req.newName == Some("")
        && NameTaken(m, "", {canon(req.id)}))
  {
    match req
    case Create(id, generated, name, parent) =>
      var key := canon(Target(id, generated));
      if Apply(canon, m, req).1 == Success {
        assert !NameTaken(m, name, {});
      }
    case Update(id, newId, name, parent) =>
      if Apply(canon, m, req).1 == Success {
        WriteKeepsNamesIff(m, canon(id), canon(Target(newId, id)), NewRow(canon, m[canon(id)], name, parent));
        assert id in m ==> canon(id) == id;
      }
    case Delete(_) =>
  }
}
