/**
 Every read the service puts through the cache, with the arguments its key is made of, the year that one
 of them leaves out, and the namespace, sub-key and dependencies it is given at its call site: exactly
 which of them share an entry, and which loaders read everything themselves. A search stands for its
 body by the body's hash.
 */
module CacheCallers {
  import opened JsValues
  import opened EntryKeys
  import CacheProtocol
  import CacheSteps
  import EarlyParts
  import StaleReads

  predicate IdChar(c: char) {
    '0' <= c <= '9' || 'a' <= c <= 'f' || 'A' <= c <= 'F' || c == '-'
  }

  /** A UUID in its text form. */
  predicate IsId(s: string) {
    |s| == 36 && forall i :: 0 <= i < |s| ==> IdChar(s[i])
  }

  /** A SHA-256 digest in hexadecimal. */
  predicate IsHash(s: string) {
    |s| == 64 && forall i :: 0 <= i < |s| ==> IdChar(s[i])
  }

  /** One read, by call site. */
  datatype Read =
    | AllTenants
    | TenantSearch(hash: string)
    | UserList(tenant: string, hash: string)
    | UserCore(user: string, of: Option<string>)
    | CohortRead(tenant: string, cohort: string, customField: bool)
    | CohortOnly(tenant: string, cohort: string)
    | CohortSearch(tenant: string, hash: string)
    | MyCohorts(tenant: string, user: string, year: string, child: bool, customField: bool)
    | UserTenants(user: string, archived: bool)
    | MembersRead(tenant: string, cohort: string, year: string, customField: bool)
    | MembersSearch(tenant: string, hash: string)
    | UserRoles(user: string)
    | FormFields(context: Option<string>, contextType: Option<string>)
    | FieldSearch(of: Option<string>, hash: string)
    | FieldOptions(hash: string)
    | UserFilter(entity: string, hash: string)
    | UserFields(user: string)
    | CohortFields(cohort: string)
    | FormRead(of: Option<string>, context: Option<string>, contextType: Option<string>)

  function Or(s: Option<string>, other: string): string {
    if s.Some? then s.value else other
  }

  function Bit(b: bool): string {
    if b then "1" else "0"
  }

  function Family(r: Read): string {
    match r
    case AllTenants | TenantSearch(_) => "tenant"
    case UserList(_, _) => "userlist"
    case UserCore(_, _) => "user"
    case CohortRead(_, _, _) | CohortOnly(_, _) | CohortSearch(_, _) | MyCohorts(_, _, _, _, _) => "cohort"
    case UserTenants(_, _) => "usertenant"
    case MembersRead(_, _, _, _) | MembersSearch(_, _) => "cohortmember"
    case UserRoles(_) => "userroles"
    case FormFields(_, _) | FieldSearch(_, _) | FieldOptions(_) => "fields"
    case UserFilter(_, _) => "userfilter"
    case UserFields(_) => "ufields"
    case CohortFields(_) => "cfields"
    case FormRead(_, _, _) => "form"
  }

  /** What the namespace names beside its family. */
  function Owner(r: Read): Option<string> {
    match r
    case AllTenants | TenantSearch(_) | UserFilter(_, _) => None
    case UserList(t, _) => Some(t)
    case UserCore(u, _) => Some(u)
    case CohortRead(t, _, _) => Some(t)
    case CohortOnly(t, _) => Some(t)
    case CohortSearch(t, _) => Some(t)
    case MyCohorts(t, _, _, _, _) => Some(t)
    case UserTenants(u, _) => Some(u)
    case MembersRead(t, _, _, _) => Some(t)
    case MembersSearch(t, _) => Some(t)
    case UserRoles(u) => Some(u)
    case FormFields(_, _) | FieldOptions(_) => Some("global")
    case FieldSearch(t, _) => Some(Or(t, "global"))
    case UserFields(u) => Some(u)
    case CohortFields(c) => Some(c)
    case FormRead(t, _, _) => Some(Or(t, "global"))
  }

  function Namespace(r: Read): string {
    match Owner(r)
    case None => Family(r)
    case Some(id) => Family(r) + ":" + id
  }

  function Key(r: Read): string {
    match r
    case AllTenants => "read:all"
    case TenantSearch(h) => "search:" + h
    case UserList(_, h) => h
    case UserCore(_, t) => "core:" + Or(t, "no-tenant")
    case CohortRead(_, c, cf) => "read:" + c + ":child:cf" + Bit(cf)
    case CohortOnly(_, c) => "read:" + c + ":nochild"
    case CohortSearch(_, h) => "search:" + h
    case MyCohorts(_, u, _, child, cf) => "mycohorts:" + u + ":child" + Bit(child) + ":cf" + Bit(cf)
    case UserTenants(_, archived) => "mappings:" + if archived then "all" else "active"
    case MembersRead(_, c, y, cf) => "read:" + c + ":" + y + ":cf" + Bit(cf)
    case MembersSearch(_, h) => "list:" + h
    case UserRoles(_) => "role"
    case FormFields(c, t) => "formFields:" + (Or(c, "none") + ":" + Or(t, "none"))
    case FieldSearch(_, h) => "search:" + h
    case FieldOptions(h) => "options:" + h
    case UserFilter(entity, h) => entity + ":" + h
    case UserFields(_) | CohortFields(_) => "data"
    case FormRead(_, c, t) => "read:" + (Or(c, "none") + ":" + Or(t, "none"))
  }

  function Deps(r: Read): seq<string> {
    match r
    case AllTenants | TenantSearch(_) | UserList(_, _) | UserTenants(_, _) | UserRoles(_) | UserFilter(_, _) => []
    case UserCore(u, _) => ["ufields:" + u]
    case MyCohorts(t, _, _, _, _) => ["cohortmember:" + t, "fieldsdef"]
    case MembersRead(t, _, _, _) => ["fieldsdef", "userlist:" + t]
    case MembersSearch(t, _) => ["fieldsdef", "userlist:" + t]
    case _ => ["fieldsdef"]
  }

  function Req(r: Read): Request {
    Request(Namespace(r), Key(r), Deps(r))
  }

  /** A context name as a request gives it: the empty one counts as none. */
  predicate Given(s: Option<string>) {
    s != Some("")
  }

  /** Nothing that reads like a version at the front or after a colon. */
  ghost predicate Plain(s: string) {
    CleanNamespace(":" + s)
  }

  ghost predicate MaybePlain(s: Option<string>) {
    s.Some? ==> Plain(s.value)
  }

  /**
   What the call sites make sure of. Ids are UUIDs where the request is checked or the id comes from a row.
   The tenant header is taken as it comes by the user list, the core row, form/read, fields/search and
   cohortMembers/read, and the cohort id by the cohort reads and cohortMembers/read. So are context names:
   form/read looks them up in a fixed list only in its loader, when the key is printed already.
   */
  ghost predicate Sound(r: Read) {
    match r
    case AllTenants => true
    case TenantSearch(h) => IsHash(h)
    case UserList(t, h) => Plain(t) && IsHash(h)
    case UserCore(u, _) => IsId(u)
    case CohortRead(t, _, _) => IsId(t)
    case CohortOnly(t, _) => IsId(t)
    case CohortSearch(t, h) => IsId(t) && IsHash(h)
    case MyCohorts(t, u, y, _, _) => IsId(t) && IsId(u) && IsId(y)
    case UserTenants(u, _) => IsId(u)
    case MembersRead(t, _, y, _) => Plain(t) && IsId(y)
    case MembersSearch(t, h) => IsId(t) && IsHash(h)
    case UserRoles(u) => IsId(u)
    case FormFields(c, t) => Given(c) && Given(t)
    case FieldSearch(t, h) => MaybePlain(t) && IsHash(h)
    case FieldOptions(h) => IsHash(h)
    case UserFilter(entity, h) => (entity == "COHORT" || entity == "USERS") && IsHash(h)
    case UserFields(u) => IsId(u)
    case CohortFields(c) => IsId(c)
    case FormRead(t, c, y) => MaybePlain(t) && Given(c) && Given(y)
  }

  // ---------------------------------------------------------------- namespaces

  lemma ColonSplits(a: string, x: string, b: string, y: string)
    requires ':' !in a && ':' !in b && a + ":" + x == b + ":" + y
    ensures a == b && x == y
  {
    var s := a + ":" + x;
    assert s[|a|] == ':' && s[|b|] == ':';
    assert forall i :: 0 <= i < |a| ==> s[i] == a[i];
    assert forall i :: 0 <= i < |b| ==> s[i] == b[i];
    assert |a| == |b|;
    assert a == s[..|a|] && x == s[|a| + 1..];
  }

  lemma OwnerIsPlain(r: Read)
    requires Sound(r) && Owner(r).Some?
    ensures Plain(Owner(r).value)
  {
    var id := Owner(r).value;
    if IsId(id) {
      assert 'v' !in id && ':' !in id;
    }
    FamilyNamespaceClean("", id);
    assert Plain("global");
  }

  lemma FamilyIsPlain(r: Read)
    ensures ':' !in Family(r)
  {
  }

  lemma NamespaceSplits(a: Read, b: Read)
    requires Sound(a) && Sound(b) && Namespace(a) == Namespace(b)
    ensures Family(a) == Family(b) && Owner(a) == Owner(b)
  {
    FamilyIsPlain(a);
    FamilyIsPlain(b);
    assert Owner(a).Some? ==> ':' in Namespace(a);
    assert Owner(b).Some? ==> ':' in Namespace(b);
    if Owner(a).Some? && Owner(b).Some? {
      ColonSplits(Family(a), Owner(a).value, Family(b), Owner(b).value);
    }
  }

  lemma NamespaceIsClean(r: Read)
    requires Sound(r)
    ensures CleanNamespace(Namespace(r))
  {
    FamilyIsPlain(r);
    if Owner(r).Some? {
      OwnerIsPlain(r);
      FamilyNamespaceClean(Family(r), Owner(r).value);
    }
  }

  // ---------------------------------------------------------------- what an invalidation reaches

  lemma SameName(f: string, x: string, g: string, y: string)
    requires ':' !in f && ':' !in g
    ensures f + ":" + x == g + ":" + y <==> f == g && x == y
  {
    if f + ":" + x == g + ":" + y {
      ColonSplits(f, x, g, y);
    }
  }

  /** A name with an owner is the read's own, or one of its dependencies. */
  lemma NameIs(r: Read, family: string, id: string)
    requires ':' !in family
    ensures family + ":" + id in Req(r).Names() <==>
      || (Family(r) == family && Owner(r) == Some(id))
      || (r.UserCore? && family == "ufields" && r.user == id)
      || (r.MyCohorts? && family == "cohortmember" && r.tenant == id)
      || ((r.MembersRead? || r.MembersSearch?) && family == "userlist" && r.tenant == id)
  {
    var name := family + ":" + id;
    assert ':' in name && ':' !in "fieldsdef";
    FamilyIsPlain(r);
    assert name == Namespace(r) <==> Family(r) == family && Owner(r) == Some(id) by {
      if Owner(r).Some? {
        SameName(family, id, Family(r), Owner(r).value);
      }
    }
    DepIs(r, family, id);
    assert name in Req(r).Names() <==> name == Namespace(r) || name in Deps(r);
  }

  lemma DepIs(r: Read, family: string, id: string)
    requires ':' !in family
    ensures family + ":" + id in Deps(r) <==>
      || (r.UserCore? && family == "ufields" && r.user == id)
      || (r.MyCohorts? && family == "cohortmember" && r.tenant == id)
      || ((r.MembersRead? || r.MembersSearch?) && family == "userlist" && r.tenant == id)
  {
    assert ':' in family + ":" + id && ':' !in "fieldsdef";
    if r.UserCore? {
      SameName(family, id, "ufields", r.user);
      assert "ufields:" + r.user == "ufields" + ":" + r.user;
    } else if r.MyCohorts? {
      SameName(family, id, "cohortmember", r.tenant);
      assert "cohortmember:" + r.tenant == "cohortmember" + ":" + r.tenant;
    } else if r.MembersRead? || r.MembersSearch? {
      SameName(family, id, "userlist", r.tenant);
      assert "userlist:" + r.tenant == "userlist" + ":" + r.tenant;
    }
  }

  /** Bumping a user's namespaces reaches these reads and no others. */
  lemma UserBumpsReach(r: Read, user: string)
    ensures "user:" + user in Req(r).Names() <==> r.UserCore? && r.user == user
    ensures "ufields:" + user in Req(r).Names() <==> (r.UserCore? || r.UserFields?) && r.user == user
    ensures "usertenant:" + user in Req(r).Names() <==> r.UserTenants? && r.user == user
    ensures "userroles:" + user in Req(r).Names() <==> r.UserRoles? && r.user == user
  {
    NameIs(r, "user", user);
    NameIs(r, "ufields", user);
    NameIs(r, "usertenant", user);
    NameIs(r, "userroles", user);
    assert "user" + ":" + user == "user:" + user && "ufields" + ":" + user == "ufields:" + user;
    assert "usertenant" + ":" + user == "usertenant:" + user && "userroles" + ":" + user == "userroles:" + user;
  }

  /** Bumping a tenant's lists reaches these. */
  lemma TenantBumpsReach(r: Read, tenant: string)
    ensures "userlist:" + tenant in Req(r).Names() <==>
      (r.UserList? || r.MembersRead? || r.MembersSearch?) && r.tenant == tenant
    ensures "cohortmember:" + tenant in Req(r).Names() <==>
      (r.MembersRead? || r.MembersSearch? || r.MyCohorts?) && r.tenant == tenant
    ensures "cohort:" + tenant in Req(r).Names() <==>
      (r.CohortRead? || r.CohortOnly? || r.CohortSearch? || r.MyCohorts?) && r.tenant == tenant
  {
    NameIs(r, "userlist", tenant);
    NameIs(r, "cohortmember", tenant);
    NameIs(r, "cohort", tenant);
    assert "userlist" + ":" + tenant == "userlist:" + tenant && "cohort" + ":" + tenant == "cohort:" + tenant;
    assert "cohortmember" + ":" + tenant == "cohortmember:" + tenant;
  }

  /** A name without an owner is the read's own, or the field definitions it depends on. */
  lemma PlainNameIs(r: Read, name: string)
    requires ':' !in name
    ensures name in Req(r).Names() <==>
      (Owner(r) == None && Family(r) == name) || (name == "fieldsdef" && "fieldsdef" in Deps(r))
  {
    assert Owner(r).Some? ==> ':' in Namespace(r);
    if name in Deps(r) {
      DepHasColon(r, name);
    }
    assert name in Req(r).Names() <==> name == Namespace(r) || name in Deps(r);
  }

  /** Bumping the namespaces without an owner, and those of a cohort's fields, reaches these. */
  lemma OtherBumpsReach(r: Read, cohort: string)
    ensures "tenant" in Req(r).Names() <==> r.AllTenants? || r.TenantSearch?
    ensures "userfilter" in Req(r).Names() <==> r.UserFilter?
    ensures "cfields:" + cohort in Req(r).Names() <==> r.CohortFields? && r.cohort == cohort
  {
    NameIs(r, "cfields", cohort);
    assert "cfields" + ":" + cohort == "cfields:" + cohort;
    PlainNameIs(r, "tenant");
    PlainNameIs(r, "userfilter");
  }

  /** Bumping the field definitions reaches all reads but these. */
  lemma FieldBumpsReach(r: Read)
    ensures "fieldsdef" in Req(r).Names() <==>
      !(r.AllTenants? || r.TenantSearch? || r.UserList? || r.UserCore? || r.UserTenants? || r.UserRoles?
        || r.UserFilter?)
  {
    PlainNameIs(r, "fieldsdef");
    if r.UserCore? {
      assert "ufields:" + r.user != "fieldsdef" by {
        DepHasColon(r, "ufields:" + r.user);
        assert ("ufields:" + r.user)[0] == 'u' && "fieldsdef"[0] == 'f';
      }
    }
  }

  lemma DepHasColon(r: Read, d: string)
    requires d in Deps(r)
    ensures d == "fieldsdef" || ':' in d
  {
    if d != "fieldsdef" {
      match r
      case UserCore(u, _) => assert d == "ufields:" + u && d[7] == ':';
      case MyCohorts(t, _, _, _, _) => assert d == "cohortmember:" + t && d[12] == ':';
      case MembersRead(t, _, _, _) => assert d == "userlist:" + t && d[8] == ':';
      case MembersSearch(t, _) => assert d == "userlist:" + t && d[8] == ':';
      case _ =>
    }
  }

  // ---------------------------------------------------------------- sub-keys within a namespace

  /** Which fixed words a sub-key is built from, and its variable part. */
  lemma FamiliesDiffer(a: Read, b: Read)
    requires Family(a) == Family(b)
    ensures (a.AllTenants? || a.TenantSearch?) <==> (b.AllTenants? || b.TenantSearch?)
    ensures a.UserList? <==> b.UserList?
    ensures a.UserCore? <==> b.UserCore?
    ensures InCohort(a) <==> InCohort(b)
    ensures a.UserTenants? <==> b.UserTenants?
    ensures (a.MembersRead? || a.MembersSearch?) <==> (b.MembersRead? || b.MembersSearch?)
    ensures a.UserRoles? <==> b.UserRoles?
    ensures (a.FormFields? || a.FieldSearch? || a.FieldOptions?)
      <==> (b.FormFields? || b.FieldSearch? || b.FieldOptions?)
    ensures a.UserFilter? <==> b.UserFilter?
    ensures a.UserFields? <==> b.UserFields?
    ensures a.CohortFields? <==> b.CohortFields?
    ensures a.FormRead? <==> b.FormRead?
  {
  }

  predicate InCohort(r: Read) {
    r.CohortRead? || r.CohortOnly? || r.CohortSearch? || r.MyCohorts?
  }

  lemma CohortKeysAreClean(r: Read)
    requires Sound(r) && InCohort(r)
    ensures CleanKey(Key(r))
  {
    match r
    case CohortRead(_, c, cf) =>
      FlagEndsClean("read:" + c + ":child", cf);
      ChildFlag("read:" + c, Bit(cf));
    case CohortOnly(_, c) => NochildIsClean(c);
    case CohortSearch(_, h) => assert 'v' !in "search:" + h;
    case MyCohorts(_, u, _, child, cf) => FlagEndsClean("mycohorts:" + u + ":child" + Bit(child), cf);
  }

  lemma FlagEndsClean(a: string, cf: bool)
    ensures CleanKey(a + ":cf" + Bit(cf))
  {
    EndsClean(a + ":c", 'f', Bit(cf)[0]);
    assert a + ":cf" + Bit(cf) == (a + ":c") + ['f'] + [Bit(cf)[0]];
  }

  lemma ChildFlag(a: string, b: string)
    ensures a + ":child:cf" + b == a + ":child" + ":cf" + b
  {
    assert ":child:cf" == ":child" + ":cf";
  }

  lemma NochildIsClean(c: string)
    ensures CleanKey("read:" + c + ":nochild")
  {
    EndsClean("read:" + c + ":nochi", 'l', 'd');
    assert "read:" + c + ":nochild" == ("read:" + c + ":nochi") + ['l'] + ['d'];
  }

  /** A key whose last character but one is no digit and no `v` does not end like a version. */
  lemma EndsClean(a: string, c: char, d: char)
    requires c != 'v' && !IsDigit(c)
    ensures CleanKey(a + [c] + [d])
  {
    var k := a + [c] + [d];
    forall i: nat ensures !VersionTailAt(k, i) {
      if i < |a| {
        assert k[i + 1..][|a| - i - 1] == c;
      }
    }
  }

  lemma CohortDepsAreSeparate(a: Read, b: Read)
    requires Sound(a) && Sound(b) && InCohort(a) && InCohort(b) && Owner(a) == Owner(b)
    ensures SeparateDeps(Req(a), Req(b))
  {
    var t := Owner(a).value;
    NothingHides("cohortmember:" + t);
    forall x, y | x in Deps(a) && y in Deps(b) ensures !HidesIn(x, y) {
      assert x == "fieldsdef" || x == "cohortmember:" + t;
      assert y == "fieldsdef" || y == "cohortmember:" + t;
    }
  }

  /** A name that ends in a UUID does not end in `fieldsdef` after a colon. */
  lemma NothingHides(name: string)
    requires |name| > 36 && IsId(name[|name| - 36..])
    ensures !HidesIn("fieldsdef", name) && !HidesIn(name, "fieldsdef")
  {
    assert name[|name| - 10..][0] == name[|name| - 36..][26];
  }

  /** Any set of reads of the service keeps the discipline under which entry keys never collide. */
  lemma CallersAreDisciplined(all: set<Read>)
    requires forall r :: r in all ==> Sound(r)
    ensures Disciplined(set r | r in all :: Req(r))
  {
    var requests := set r | r in all :: Req(r);
    forall q | q in requests ensures CleanNamespace(q.ns) {
      var r :| r in all && q == Req(r);
      NamespaceIsClean(r);
    }
    forall p, q | p in requests && q in requests ensures Apart(p, q) {
      var a :| a in all && p == Req(a);
      var b :| b in all && q == Req(b);
      ReadsAreApart(a, b);
    }
  }

  lemma ReadsAreApart(a: Read, b: Read)
    requires Sound(a) && Sound(b)
    ensures Apart(Req(a), Req(b))
  {
    if Namespace(a) == Namespace(b) {
      NamespaceSplits(a, b);
      FamiliesDiffer(a, b);
      if InCohort(a) {
        CohortKeysAreClean(a);
        CohortKeysAreClean(b);
        CohortDepsAreSeparate(a, b);
        CohortDepsAreSeparate(b, a);
      }
    }
  }

  lemma CutAt(word: string, x: string, rest: string)
    ensures (word + x + rest)[|word|..|word| + |x|] == x
    ensures (word + x)[|word|..] == x
  {
  }

  lemma CohortReadKey(c: string, cf: bool)
    ensures var k := "read:" + c + ":child:cf" + Bit(cf);
      |k| == |c| + 15 && k[5..|k| - 10] == c && k[|k| - 1] == Bit(cf)[0] && k[0] == 'r'
  {
    CutAt("read:", c, ":child:cf" + Bit(cf));
    assert "read:" + c + ":child:cf" + Bit(cf) == "read:" + c + (":child:cf" + Bit(cf));
  }

  lemma CohortOnlyKey(c: string)
    ensures var k := "read:" + c + ":nochild"; |k| == |c| + 13 && k[5..|k| - 8] == c && k[|k| - 1] == 'd' && k[0] == 'r'
  {
    CutAt("read:", c, ":nochild");
  }

  lemma MyCohortsKey(u: string, child: bool, cf: bool)
    requires IsId(u)
    ensures var k := "mycohorts:" + u + ":child" + Bit(child) + ":cf" + Bit(cf);
      |k| == 57 && k[10..46] == u && k[52] == Bit(child)[0] && k[56] == Bit(cf)[0] && k[0] == 'm'
  {
    var end := ":child" + Bit(child) + ":cf" + Bit(cf);
    CutAt("mycohorts:", u, end);
    assert "mycohorts:" + u + ":child" + Bit(child) + ":cf" + Bit(cf) == "mycohorts:" + u + end;
  }

  lemma CohortKeyShape(r: Read)
    requires Sound(r) && InCohort(r)
    ensures Key(r) != []
    ensures Key(r)[0] == (if r.CohortSearch? then 's' else if r.MyCohorts? then 'm' else 'r')
    ensures r.CohortOnly? ==> Key(r)[|Key(r)| - 1] == 'd'
    ensures r.CohortRead? ==> Key(r)[|Key(r)| - 1] == Bit(r.customField)[0]
  {
    match r
    case CohortRead(_, c, cf) => CohortReadKey(c, cf);
    case CohortOnly(_, c) => CohortOnlyKey(c);
    case CohortSearch(_, h) =>
    case MyCohorts(_, u, _, child, cf) => MyCohortsKey(u, child, cf);
  }

  /** Two reads of a cohort namespace have one sub-key only as the same read, or as one user's cohorts in two years. */
  lemma CohortKeysDiffer(a: Read, b: Read)
    requires Sound(a) && Sound(b) && InCohort(a) && InCohort(b) && Owner(a) == Owner(b) && Key(a) == Key(b)
    ensures a == b || SameButYear(a, b)
  {
    CohortKeyShape(a);
    CohortKeyShape(b);
    match a
    case CohortRead(_, c, cf) =>
      CohortReadKey(c, cf);
      CohortReadKey(b.cohort, b.customField);
    case CohortOnly(_, c) =>
      CohortOnlyKey(c);
      CohortOnlyKey(b.cohort);
    case CohortSearch(_, h) =>
      CutAt("search:", h, "");
      CutAt("search:", b.hash, "");
    case MyCohorts(_, u, _, child, cf) =>
      MyCohortsKey(u, child, cf);
      MyCohortsKey(b.user, b.child, b.customField);
  }

  lemma MemberKey(c: string, y: string, cf: bool)
    requires IsId(y)
    ensures var k := "read:" + c + ":" + y + ":cf" + Bit(cf);
      |k| == |c| + 46 && k[5..|k| - 41] == c && k[|k| - 40..|k| - 4] == y && k[|k| - 1] == Bit(cf)[0]
  {
    var end := ":cf" + Bit(cf);
    CutAt("read:", c, ":" + y + end);
    CutAt("read:" + c + ":", y, end);
    assert "read:" + c + ":" + y + ":cf" + Bit(cf) == "read:" + c + (":" + y + end);
    assert "read:" + c + ":" + y + ":cf" + Bit(cf) == ("read:" + c + ":") + y + end;
  }

  lemma MemberKeysDiffer(a: Read, b: Read)
    requires Sound(a) && Sound(b) && a.MembersRead? && b.MembersRead? && Owner(a) == Owner(b) && Key(a) == Key(b)
    ensures a == b
  {
    MemberKey(a.cohort, a.year, a.customField);
    MemberKey(b.cohort, b.year, b.customField);
  }

  /** The first letter and the length of a sub-key, where the namespace alone does not tell the call site. */
  lemma KeyShapes(r: Read)
    requires Sound(r)
    ensures r.AllTenants? ==> |Key(r)| == 8
    ensures r.TenantSearch? ==> |Key(r)| == 71
    ensures r.MembersRead? ==> Key(r)[0] == 'r'
    ensures r.MembersSearch? ==> Key(r)[0] == 'l'
    ensures r.FormFields? ==> Key(r)[0] == 'f'
    ensures r.FieldSearch? ==> Key(r)[0] == 's'
    ensures r.FieldOptions? ==> Key(r)[0] == 'o'
  {
  }

  lemma SameCallSite(a: Read, b: Read)
    requires Sound(a) && Sound(b) && Family(a) == Family(b) && Key(a) == Key(b)
    ensures InCohort(a) <==> InCohort(b)
    ensures !InCohort(a) ==>
      && (a.AllTenants? <==> b.AllTenants?) && (a.TenantSearch? <==> b.TenantSearch?) && (a.UserList? <==> b.UserList?)
      && (a.UserCore? <==> b.UserCore?) && (a.UserTenants? <==> b.UserTenants?) && (a.MembersRead? <==> b.MembersRead?)
      && (a.MembersSearch? <==> b.MembersSearch?) && (a.UserRoles? <==> b.UserRoles?)
      && (a.FormFields? <==> b.FormFields?) && (a.FieldSearch? <==> b.FieldSearch?)
      && (a.FieldOptions? <==> b.FieldOptions?) && (a.UserFilter? <==> b.UserFilter?)
      && (a.UserFields? <==> b.UserFields?) && (a.CohortFields? <==> b.CohortFields?) && (a.FormRead? <==> b.FormRead?)
  {
    FamiliesDiffer(a, b);
    KeyShapes(a);
    KeyShapes(b);
  }

  lemma HashesDiffer(word: string, h: string, g: string)
    requires word + h == word + g
    ensures h == g
  {
    CutAt(word, h, "");
    CutAt(word, g, "");
  }

  // ---------------------------------------------------------------- which reads share an entry

  /** One user's cohorts in two academic years: the year is an argument of the loader and not in the key. */
  predicate SameButYear(a: Read, b: Read) {
    a.MyCohorts? && b.MyCohorts? && b == MyCohorts(a.tenant, a.user, b.year, a.child, a.customField)
  }

  /** A read without a tenant and one with the word that stands for none. */
  predicate SameTenantWord(a: Read, b: Read) {
    || (a.UserCore? && b.UserCore? && b == UserCore(a.user, b.of) && Or(a.of, "no-tenant") == Or(b.of, "no-tenant"))
    || (a.FieldSearch? && b.FieldSearch? && b == FieldSearch(b.of, a.hash) && Or(a.of, "global") == Or(b.of, "global"))
  }

  function Labels(c: Option<string>, t: Option<string>): string {
    Or(c, "none") + ":" + Or(t, "none")
  }

  /** Two reads of form fields, or of one tenant's form, whose context names run together to one text. */
  predicate SameLabels(a: Read, b: Read) {
    || (a.FormFields? && b.FormFields? && Labels(a.context, a.contextType) == Labels(b.context, b.contextType))
    || (a.FormRead? && b.FormRead? && Or(a.of, "global") == Or(b.of, "global")
          && Labels(a.context, a.contextType) == Labels(b.context, b.contextType))
  }

  predicate Shares(a: Read, b: Read) {
    a == b || SameButYear(a, b) || SameTenantWord(a, b) || SameLabels(a, b)
  }

  lemma SharedIsOneRequest(a: Read, b: Read)
    requires Shares(a, b)
    ensures Req(a) == Req(b)
  {
    if SameButYear(a, b) {
      YearIsNotAsked(a, b);
    } else if SameTenantWord(a, b) {
      WordIsTenant(a, b);
    } else if SameLabels(a, b) {
      LabelsAreText(a, b);
    }
  }

  lemma YearIsNotAsked(a: Read, b: Read)
    requires SameButYear(a, b)
    ensures Req(a) == Req(b)
  {
  }

  lemma WordIsTenant(a: Read, b: Read)
    requires SameTenantWord(a, b)
    ensures Req(a) == Req(b)
  {
  }

  lemma LabelsAreText(a: Read, b: Read)
    requires SameLabels(a, b)
    ensures Req(a) == Req(b)
  {
  }

  /** Exactly those reads are one to the cache. */
  lemma SameRequestIff(a: Read, b: Read)
    requires Sound(a) && Sound(b)
    ensures Req(a) == Req(b) <==> Shares(a, b)
  {
    if Shares(a, b) {
      SharedIsOneRequest(a, b);
    } else if Namespace(a) == Namespace(b) && Key(a) == Key(b) {
      OneRequestIsShared(a, b);
    }
  }

  lemma OneRequestIsShared(a: Read, b: Read)
    requires Sound(a) && Sound(b) && Namespace(a) == Namespace(b) && Key(a) == Key(b)
    ensures Shares(a, b)
  {
    NamespaceSplits(a, b);
    SameCallSite(a, b);
    if InCohort(a) {
      CohortKeysDiffer(a, b);
    } else {
      OtherKeysDiffer(a, b);
    }
  }

  lemma OtherKeysDiffer(a: Read, b: Read)
    requires Sound(a) && Sound(b) && !InCohort(a) && Family(a) == Family(b) && Owner(a) == Owner(b) && Key(a) == Key(b)
    ensures Shares(a, b)
  {
    SameCallSite(a, b);
    match a
    case TenantSearch(h) => HashesDiffer("search:", h, b.hash);
    case UserCore(_, t) => HashesDiffer("core:", Or(t, "no-tenant"), Or(b.of, "no-tenant"));
    case UserTenants(_, archived) => assert Key(a)[10] == Key(b)[10];
    case MembersRead(_, _, _, _) => MemberKeysDiffer(a, b);
    case MembersSearch(_, h) => HashesDiffer("list:", h, b.hash);
    case FormFields(c, t) => HashesDiffer("formFields:", Labels(c, t), Labels(b.context, b.contextType));
    case FieldSearch(_, h) => HashesDiffer("search:", h, b.hash);
    case FieldOptions(h) => HashesDiffer("options:", h, b.hash);
    case UserFilter(entity, h) => ColonSplits(entity, h, b.entity, b.hash);
    case FormRead(_, c, t) => HashesDiffer("read:", Labels(c, t), Labels(b.context, b.contextType));
    case _ =>
  }

  /**
   Over all call sites: two reads print one entry key exactly when they are one to the cache and the
   versions of all their namespaces agree.
   */
  lemma ReadsShareAnEntryIff(prefix: string, a: Read, vv: Versions, b: Read, ww: Versions)
    requires Sound(a) && Sound(b)
    ensures EntryKey(prefix, Req(a), vv) == EntryKey(prefix, Req(b), ww)
      <==> Shares(a, b) && Agree(Req(a).Names(), vv, ww)
  {
    SameRequestIff(a, b);
    if Shares(a, b) && Agree(Req(a).Names(), vv, ww) {
      AgreeingVersionsPrintOneKey(prefix, Req(a), vv, ww);
    }
    if EntryKey(prefix, Req(a), vv) == EntryKey(prefix, Req(b), ww) {
      EntryTellsRequest(prefix, a, vv, b, ww);
    }
  }

  lemma EntryTellsRequest(prefix: string, a: Read, vv: Versions, b: Read, ww: Versions)
    requires Sound(a) && Sound(b) && EntryKey(prefix, Req(a), vv) == EntryKey(prefix, Req(b), ww)
    ensures Req(a) == Req(b) && Agree(Req(a).Names(), vv, ww)
  {
    var all := {a, b};
    CallersAreDisciplined(all);
    var requests := set r | r in all :: Req(r);
    assert a in all && b in all;
    assert Req(a) in requests && Req(b) in requests;
    KeysNeverCollide(requests, prefix, Req(a), vv, Req(b), ww);
  }

  /** No two different reads in use share: one year per tenant, user and flags, and no words that stand for none. */
  ghost predicate NoneShare(all: set<Read>) {
    forall a, b :: a in all && b in all && Shares(a, b) ==> a == b
  }

  lemma NoTwoReadsShareAnEntry(prefix: string, all: set<Read>, a: Read, vv: Versions, b: Read, ww: Versions)
    requires (forall r :: r in all ==> Sound(r)) && NoneShare(all) && a in all && b in all
    requires EntryKey(prefix, Req(a), vv) == EntryKey(prefix, Req(b), ww)
    ensures a == b && Agree(Req(a).Names(), vv, ww)
  {
    ReadsShareAnEntryIff(prefix, a, vv, b, ww);
  }

  /** The condition is needed: one user's cohorts in two years are one entry, whatever the flags. */
  lemma TwoYearsOneEntry(prefix: string, vv: Versions, tenant: string, user: string, y: string, z: string,
                         child: bool, cf: bool)
    requires IsId(tenant) && IsId(user) && IsId(y) && IsId(z) && y != z
    ensures var a, b := MyCohorts(tenant, user, y, child, cf), MyCohorts(tenant, user, z, child, cf);
      a != b && EntryKey(prefix, Req(a), vv) == EntryKey(prefix, Req(b), vv)
  {
  }

  // ---------------------------------------------------------------- context names of the form fields

  predicate FirstSplit(text: string, i: nat, x: string, y: string) {
    0 < i < |text| - 1 && text[i] == ':' && x == text[..i] && y == text[i + 1..]
  }

  lemma SplitsAt(x: string, y: string)
    requires x != "" && y != ""
    ensures FirstSplit(x + ":" + y, |x|, x, y)
  {
  }

  /** No other pair of context names runs together to the same text. */
  ghost predicate LabelsStandAlone(c: Option<string>, t: Option<string>) {
    forall d, u :: Given(d) && Given(u) && Labels(d, u) == Labels(c, t) ==> d == c && u == t
  }

  /** Both names given, neither of them the word "none", and no colon but at the very ends. */
  predicate LabelsClear(c: Option<string>, t: Option<string>) {
    && c.Some? && t.Some? && c.value != "none" && t.value != "none"
    && c.value != "" && t.value != "" && ':' !in c.value[1..] && ':' !in t.value[..|t.value| - 1]
  }

  lemma ClearLabelsStandAlone(c: Option<string>, t: Option<string>)
    requires LabelsClear(c, t)
    ensures LabelsStandAlone(c, t)
  {
    var x, y, text := c.value, t.value, Labels(c, t);
    forall d, u | Given(d) && Given(u) && Labels(d, u) == text ensures d == c && u == t {
      var i := |Or(d, "none")|;
      SplitsAt(Or(d, "none"), Or(u, "none"));
      SplitsAt(x, y);
      if i != |x| {
        NoOtherColon(x, y, i);
      }
    }
  }

  lemma NoOtherColon(x: string, y: string, i: nat)
    requires x != "" && y != "" && ':' !in x[1..] && ':' !in y[..|y| - 1]
    requires 0 < i < |x| + |y| && i != |x|
    ensures (x + ":" + y)[i] != ':'
  {
    if i < |x| {
      assert x[1..][i - 1] == (x + ":" + y)[i];
    } else {
      assert y[..|y| - 1][i - |x| - 1] == (x + ":" + y)[i];
    }
  }

  lemma ColonInFirst(c: Option<string>, t: Option<string>, i: nat)
    requires c.Some? && Given(t) && 0 < i < |c.value| && c.value[i] == ':'
    ensures !LabelsStandAlone(c, t)
  {
    var text := Labels(c, t);
    var d, u := Some(text[..i]), Some(text[i + 1..]);
    assert Labels(d, u) == text && Given(d) && Given(u) && |d.value| != |c.value|;
  }

  lemma ColonInSecond(c: Option<string>, t: Option<string>, j: nat)
    requires t.Some? && Given(c) && j < |t.value| - 1 && t.value[j] == ':'
    ensures !LabelsStandAlone(c, t)
  {
    var text := Labels(c, t);
    var i := |Or(c, "none")| + 1 + j;
    var d, u := Some(text[..i]), Some(text[i + 1..]);
    assert Labels(d, u) == text && Given(d) && Given(u) && |u.value| != |t.value|;
  }

  lemma WordForNone(c: Option<string>, t: Option<string>)
    requires Given(c) && Given(t)
    requires c == None || c == Some("none") || t == None || t == Some("none")
    ensures !LabelsStandAlone(c, t)
  {
    if c == None || c == Some("none") {
      var d := if c == None then Some("none") else None;
      assert Labels(d, t) == Labels(c, t) && Given(d);
    } else {
      var u := if t == None then Some("none") else None;
      assert Labels(c, u) == Labels(c, t) && Given(u);
    }
  }

  /** A read of form fields has its entry to itself if and only if its context names are clear. */
  lemma FormFieldsAloneIff(c: Option<string>, t: Option<string>)
    requires Given(c) && Given(t)
    ensures (forall r :: Sound(r) && Req(r) == Req(FormFields(c, t)) ==> r == FormFields(c, t)) <==> LabelsClear(c, t)
  {
    AloneMeansLabelsAlone(c, t);
    if LabelsClear(c, t) {
      ClearLabelsStandAlone(c, t);
    } else if c == None || c == Some("none") || t == None || t == Some("none") {
      WordForNone(c, t);
    } else if ':' in c.value[1..] {
      var i :| 0 <= i < |c.value| - 1 && c.value[1..][i] == ':';
      ColonInFirst(c, t, i + 1);
    } else {
      var j :| 0 <= j < |t.value| - 1 && t.value[..|t.value| - 1][j] == ':';
      ColonInSecond(c, t, j);
    }
  }

  lemma AloneMeansLabelsAlone(c: Option<string>, t: Option<string>)
    requires Given(c) && Given(t)
    ensures (forall r :: Sound(r) && Req(r) == Req(FormFields(c, t)) ==> r == FormFields(c, t))
      <==> LabelsStandAlone(c, t)
  {
    var f := FormFields(c, t);
    if LabelsStandAlone(c, t) {
      forall r | Sound(r) && Req(r) == Req(f) ensures r == f {
        SameRequestIff(r, f);
      }
    } else {
      var d, u :| Given(d) && Given(u) && Labels(d, u) == Labels(c, t) && !(d == c && u == t);
      SameRequestIff(FormFields(d, u), f);
      assert Sound(FormFields(d, u)) && Req(FormFields(d, u)) == Req(f) && FormFields(d, u) != f;
    }
  }

  /** The words that stand for no tenant are accepted as tenants by calls that do not check the header. */
  lemma TenantWordsCollide(hash: string, user: string)
    ensures Req(FieldSearch(Some("global"), hash)) == Req(FieldSearch(None, hash))
    ensures Req(UserCore(user, Some("no-tenant"))) == Req(UserCore(user, None))
    ensures Req(FormRead(Some("global"), None, None)) == Req(FormRead(None, None, None))
  {
  }

  /** A tenant header that is not plain can make a search print the key of another call site's read. */
  lemma UnplainTenantCollides(prefix: string, hash: string, c: string)
    ensures var a := FieldSearch(Some("global" + ":v1:" + ("formFields:" + c)), hash);
      var b := FormFields(Some(c), Some("v1:" + ("search:" + hash)));
      EntryKey(prefix, Req(a), map[]) == EntryKey(prefix, Req(b), map[])
  {
    MarkMovesOver(prefix, "fields" + ":", "global", "formFields:" + c, "search:" + hash);
  }

  lemma MarkMovesOver(prefix: string, family: string, g: string, m: string, k: string)
    ensures prefix + ":" + Head(family + (g + ":v1:" + m), 1) + k
      == prefix + ":" + Head(family + g, 1) + (m + ":v1:" + k)
  {
    assert Decimal(1) == "1";
    var h := family + g + ":v1:";
    assert Head(family + g, 1) == h;
    assert Head(family + (g + ":v1:" + m), 1) == h + m + ":v1:";
  }

  // ---------------------------------------------------------------- freshness of the service's reads

  /**
   Where the loaders have their data from. The cohort reads fetch the cohort's row before they ask the
   cache; the searches over users, cohorts and members build on the cached field filter or the cached
   custom fields; every other loader reads everything itself.
   */
  function KindOf(r: Read): CacheSteps.Kind {
    match r
    case CohortRead(_, _, _) | CohortOnly(_, _) => CacheSteps.Prefetches
    case UserList(_, _) | CohortSearch(_, _) | MembersSearch(_, _) => CacheSteps.Through
    case _ => CacheSteps.Direct
  }

  /** The protocol runs with these reads, and each is answered by its own loader. */
  ghost predicate Serves(env: CacheSteps.Env, all: set<Read>, answer: (Read, nat, nat) -> Value) {
    && (forall r :: r in all ==> Sound(r))
    && env.requests == (set r | r in all :: Req(r))
    && forall r :: r in all ==> env.kind(Req(r)) == KindOf(r) && LoadsAs(env, r, answer)
  }

  ghost predicate LoadsAs(env: CacheSteps.Env, r: Read, answer: (Read, nat, nat) -> Value) {
    forall early: nat, late: nat :: env.load(Req(r), early, late) == answer(r, early, late)
  }

  /** That is only possible when reads that share an entry have one answer, as two years of a user's cohorts do not. */
  lemma SharedReadsHaveOneAnswer(env: CacheSteps.Env, all: set<Read>, answer: (Read, nat, nat) -> Value, a: Read,
                                 b: Read)
    requires Serves(env, all, answer) && a in all && b in all && Shares(a, b)
    ensures forall early: nat, late: nat :: answer(a, early, late) == answer(b, early, late)
  {
    SameRequestIff(a, b);
    forall early: nat, late: nat ensures answer(a, early, late) == answer(b, early, late) {
      assert env.load(Req(a), early, late) == answer(a, early, late);
      assert env.load(Req(b), early, late) == answer(b, early, late);
    }
  }

  ghost function LoaderFor(all: set<Read>, answer: (Read, nat, nat) -> Value, q: Request): (r: Read)
    ensures (exists a :: a in all && Req(a) == q) ==> r in all && Req(r) == q
  {
    if exists a :: a in all && Req(a) == q then (var a :| a in all && Req(a) == q; a) else AllTenants
  }

  /** And always possible when no two reads in use share one. */
  lemma UnsharedReadsCanBeServed(prefix: string, all: set<Read>, answer: (Read, nat, nat) -> Value)
    returns (env: CacheSteps.Env)
    requires (forall r :: r in all ==> Sound(r)) && NoneShare(all)
    ensures env.prefix == prefix && Serves(env, all, answer)
  {
    env := CacheSteps.Env(prefix, set r | r in all :: Req(r),
      (q: Request, early: nat, late: nat) => answer(LoaderFor(all, answer, q), early, late),
      (q: Request) => KindOf(LoaderFor(all, answer, q)));
    forall r | r in all ensures LoaderFor(all, answer, Req(r)) == r {
      SameRequestIff(LoaderFor(all, answer, Req(r)), r);
    }
  }

  /** The loader's own answer for one database that includes the commits of all the INCRs in `landed`. */
  ghost predicate AnswersFresh(r: Read, answer: (Read, nat, nat) -> Value, value: Value,
                               landed: set<CacheSteps.Landing>, commits: nat) {
    exists snap: nat :: snap <= commits && value == answer(r, snap, snap) && CacheProtocol.Covers(landed, Req(r), snap)
  }

  /** The same with a part that was there before the load. */
  ghost predicate AnswersWholly(r: Read, answer: (Read, nat, nat) -> Value, value: Value,
                                landed: set<CacheSteps.Landing>, commits: nat) {
    exists early: nat, snap: nat ::
      early <= snap <= commits && value == answer(r, early, snap) && CacheProtocol.Covers(landed, Req(r), early)
  }

  /**
   Freshness of the reads whose loaders read everything themselves, whatever the others do: such a read
   that begins after some INCRs have finished gets the answer of its own loader for a database that
   includes every one of their commits.
   */
  lemma DirectReadsAreFresh(env: CacheSteps.Env, all: set<Read>, answer: (Read, nat, nat) -> Value,
                            before: seq<CacheSteps.Step>, start: CacheSteps.Step,
                            rid: nat, r: Read, after: seq<CacheSteps.Step>, value: Value)
    requires Serves(env, all, answer) && r in all && KindOf(r) == CacheSteps.Direct
    requires CacheProtocol.Starts(env, start, rid, Req(r))
    requires CacheSteps.Enabled(env, CacheSteps.Run(env, before), start)
    requires CacheProtocol.Delivers(CacheSteps.Run(env, before + [start] + after), rid, value)
    ensures AnswersFresh(r, answer, value, CacheSteps.Run(env, before).landed,
      CacheSteps.Run(env, before + [start] + after).commits)
  {
    CallersAreDisciplined(all);
    CacheProtocol.ReadsAreFresh(env, before, start, rid, Req(r), after, value);
    var early: nat, snap: nat :| early <= snap <= CacheSteps.Run(env, before + [start] + after).commits
      && value == env.load(Req(r), early, snap)
      && CacheProtocol.Covers(CacheSteps.Run(env, before).landed, Req(r), snap) && early == snap;
    assert LoadsAs(env, r, answer);
  }

  /**
   Every read of the service, also those that build on a fetched row or a cached one, is fresh where no
   load of it is overtaken.
   */
  lemma UnovertakenReadsAreFresh(env: CacheSteps.Env, all: set<Read>, answer: (Read, nat, nat) -> Value,
                                 before: seq<CacheSteps.Step>, start: CacheSteps.Step,
                                 rid: nat, r: Read, after: seq<CacheSteps.Step>, value: Value)
    requires Serves(env, all, answer) && r in all
    requires EarlyParts.NeverOvertaken(env, Req(r), before + [start] + after)
    requires CacheProtocol.Starts(env, start, rid, Req(r))
    requires CacheSteps.Enabled(env, CacheSteps.Run(env, before), start)
    requires CacheProtocol.Delivers(CacheSteps.Run(env, before + [start] + after), rid, value)
    ensures AnswersWholly(r, answer, value, CacheSteps.Run(env, before).landed,
      CacheSteps.Run(env, before + [start] + after).commits)
  {
    CallersAreDisciplined(all);
    EarlyParts.UnovertakenReadsAreFresh(env, before, start, rid, Req(r), after, value);
    var early: nat, snap: nat :| early <= snap <= CacheSteps.Run(env, before + [start] + after).commits
      && value == env.load(Req(r), early, snap)
      && CacheProtocol.Covers(CacheSteps.Run(env, before).landed, Req(r), early);
    assert LoadsAs(env, r, answer);
  }

  /**
   A cohort read whose row is fetched, renamed and announced before the versions are read leaves the old
   row to later reads.
   */
  lemma CohortReadGoesStale(env: CacheSteps.Env, all: set<Read>, answer: (Read, nat, nat) -> Value, r: Read)
    requires Serves(env, all, answer)
    requires r in all && KindOf(r) == CacheSteps.Prefetches && IsCacheable(answer(r, 0, 1))
    requires forall early: nat, late: nat :: 0 < early ==> answer(r, early, late) != answer(r, 0, 1)
    ensures exists before, start, rid, after ::
      StaleReads.GoesStale(env, before, start, rid, Req(r), after, answer(r, 0, 1))
  {
    AnsweredByLoader(env, r, answer);
    StaleReads.PrefetchedReadGoesStale(env, Req(r));
  }

  /** Which cached reads the loader of a search asks for: the field filter, or the custom fields of the users found. */
  predicate BuildsOn(r: Read, inner: Read) {
    match r
    case UserList(_, _) => inner.UserFields? || (inner.UserFilter? && inner.entity == "USERS")
    case CohortSearch(_, _) => inner.UserFilter? && inner.entity == "COHORT"
    case MembersSearch(_, _) => inner.UserFields?
    case _ => false
  }

  lemma OtherNamespace(r: Read, inner: Read)
    requires Sound(r) && Sound(inner) && BuildsOn(r, inner)
    ensures Namespace(r) != Namespace(inner)
  {
    if Namespace(r) == Namespace(inner) {
      NamespaceSplits(r, inner);
    }
  }

  lemma SearchIsNoFieldsDef(r: Read)
    requires Sound(r) && KindOf(r) == CacheSteps.Through
    ensures Namespace(r) != "fieldsdef"
  {
    assert Namespace(r)[|Family(r)|] == ':';
    assert ':' !in "fieldsdef";
  }

  lemma InnerNames(inner: Read)
    requires inner.UserFields? || inner.UserFilter?
    ensures KindOf(inner) == CacheSteps.Direct
    ensures forall n :: n in Req(inner).Names() ==> n == Namespace(inner) || n == "fieldsdef"
  {
  }

  lemma InnerDoesNotName(r: Read, inner: Read)
    requires Sound(r) && Sound(inner) && BuildsOn(r, inner)
    ensures KindOf(inner) == CacheSteps.Direct && KindOf(r) == CacheSteps.Through
    ensures Req(r).ns !in Req(inner).Names()
  {
    OtherNamespace(r, inner);
    SearchIsNoFieldsDef(r);
    InnerNames(inner);
  }

  /** So does a search whose loader builds on a cached read that was loaded before the change. */
  lemma SearchGoesStale(env: CacheSteps.Env, all: set<Read>, answer: (Read, nat, nat) -> Value, r: Read, inner: Read)
    requires Serves(env, all, answer) && r in all && inner in all && BuildsOn(r, inner)
    requires IsCacheable(answer(r, 0, 1)) && IsCacheable(answer(inner, 0, 0))
    requires forall early: nat, late: nat :: 0 < early ==> answer(r, early, late) != answer(r, 0, 1)
    ensures exists before, start, rid, after ::
      StaleReads.GoesStale(env, before, start, rid, Req(r), after, answer(r, 0, 1))
  {
    AnsweredByLoader(env, r, answer);
    AnsweredByLoader(env, inner, answer);
    InnerDoesNotName(r, inner);
    StaleReads.ReadThroughGoesStale(env, Req(r), Req(inner));
  }

  lemma AnsweredByLoader(env: CacheSteps.Env, r: Read, answer: (Read, nat, nat) -> Value)
    requires LoadsAs(env, r, answer)
    ensures env.load(Req(r), 0, 1) == answer(r, 0, 1) && env.load(Req(r), 0, 0) == answer(r, 0, 0)
  {
  }
}
