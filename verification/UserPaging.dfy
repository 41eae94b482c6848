/**
 One page of users: the filtered users are sorted and cut, the page is joined with the roles, which
 doubles a user for every role, sorted again, and regrouped. What comes out is the page again, with
 each user's roles.
 */
module UserPaging {
  import opened JsValues
  import opened Lists

  /** The columns selected for a filtered user; `sortKey` stands for the column sorted by. */
  datatype UserRow = UserRow(userId: string, sortKey: int, columns: string)

  datatype RoleMapping = RoleMapping(userId: string, tenantId: string, roleId: string)

  datatype ResultRow = ResultRow(user: UserRow, totalCount: nat, roleName: Option<string>)

  datatype Listed = Listed(user: UserRow, roles: seq<string>)

  // ---------------------------------------------------------------- the query, step by step

  predicate Before(descending: bool, a: UserRow, b: UserRow) {
    if descending then a.sortKey >= b.sortKey else a.sortKey <= b.sortKey
  }

  /** Any order that ORDER BY allows: rows with one sort key may come in any order. */
  ghost predicate IsOrdering(filtered: set<UserRow>, sorted: seq<UserRow>, descending: bool) {
    && (forall u :: u in sorted <==> u in filtered)
    && (forall i, j :: 0 <= i < j < |sorted| ==> sorted[i] != sorted[j] && Before(descending, sorted[i], sorted[j]))
  }

  /** The user's role mappings in the tenant, each with its role's name if the role exists. */
  function MappedRoles(userId: string, tenant: string, mappings: seq<RoleMapping>,
                       names: map<string, string>): seq<Option<string>> {
    if mappings == [] then []
    else
      var m := mappings[0];
      (if m.userId == userId && m.tenantId == tenant
       then [if m.roleId in names then Some(names[m.roleId]) else None] else [])
      + MappedRoles(userId, tenant, mappings[1..], names)
  }

  function RowsFor(u: UserRow, total: nat, roles: seq<Option<string>>): seq<ResultRow> {
    if roles == [] then [] else [ResultRow(u, total, roles[0])] + RowsFor(u, total, roles[1..])
  }

  /** The two LEFT JOINs: a user without a role keeps one row. */
  function JoinRoles(page: seq<UserRow>, total: nat, tenant: string, mappings: seq<RoleMapping>,
                     names: map<string, string>): seq<ResultRow> {
    if page == [] then []
    else
      var roles := MappedRoles(page[0].userId, tenant, mappings, names);
      RowsFor(page[0], total, if roles == [] then [None] else roles)
        + JoinRoles(page[1..], total, tenant, mappings, names)
  }

  /** Any order of the joined rows that the last ORDER BY allows. */
  ghost predicate IsResult(joined: seq<ResultRow>, rows: seq<ResultRow>, descending: bool) {
    && multiset(rows) == multiset(joined)
    && forall i, j :: 0 <= i < j < |rows| ==> Before(descending, rows[i].user, rows[j].user)
  }

  // ---------------------------------------------------------------- regrouping

  predicate HasUser(users: seq<Listed>, userId: string) {
    exists i :: 0 <= i < |users| && users[i].user.userId == userId
  }

  function IndexOf(users: seq<Listed>, userId: string): (i: nat)
    requires HasUser(users, userId)
    ensures i < |users| && users[i].user.userId == userId
  {
    if users[0].user.userId == userId then 0
    else
      assert exists i :: 0 <= i < |users[1..]| && users[1..][i].user.userId == userId by {
        var i :| 0 <= i < |users| && users[i].user.userId == userId;
        assert users[1..][i - 1] == users[i];
      }
      1 + IndexOf(users[1..], userId)
  }

  predicate Says(rows: seq<ResultRow>, userId: string, role: string) {
    exists r :: r in rows && r.user.userId == userId && r.roleName == Some(role)
  }

  predicate RolesFit(rows: seq<ResultRow>, u: Listed) {
    && (forall i, j :: 0 <= i < j < |u.roles| ==> u.roles[i] != u.roles[j])
    && (forall role :: role in u.roles ==> role != "" && Says(rows, u.user.userId, role))
    && (forall r :: r in rows && r.user.userId == u.user.userId && r.roleName.Some? && r.roleName.value != "" ==>
          r.roleName.value in u.roles)
  }

  /** `at[i]` is the first row of the i-th user. */
  ghost predicate FirstRows(rows: seq<ResultRow>, users: seq<Listed>, at: seq<nat>) {
    && |at| == |users|
    && (forall i :: 0 <= i < |users| ==> at[i] < |rows| && users[i].user == rows[at[i]].user)
    && (forall i, j :: 0 <= i < j < |users| ==> at[i] < at[j] && users[i].user.userId != users[j].user.userId)
  }

  predicate AllListed(rows: seq<ResultRow>, users: seq<Listed>) {
    forall r :: r in rows ==> HasUser(users, r.user.userId)
  }

  predicate AllRoles(rows: seq<ResultRow>, users: seq<Listed>) {
    forall i :: 0 <= i < |users| ==> RolesFit(rows, users[i])
  }

  ghost predicate Grouped(rows: seq<ResultRow>, users: seq<Listed>, at: seq<nat>) {
    FirstRows(rows, users, at) && AllListed(rows, users) && AllRoles(rows, users)
  }

  /** The map from ids to users keeps the order in which the ids were first met. */
  method ProcessOptimizedUserResults(rows: seq<ResultRow>) returns (users: seq<Listed>, ghost at: seq<nat>)
    ensures UniqueUsers(users) && AllListed(rows, users) && AllRoles(rows, users)
    ensures FirstRows(rows, users, at)
  {
    users, at := [], [];
    for n := 0 to |rows|
      invariant Grouped(rows[..n], users, at)
    {
      var row := rows[n];
      assert rows[..n + 1] == rows[..n] + [row];
      ghost var before := users;
      users := WithUser(users, row.user);
      var i := IndexOf(users, row.user.userId);
      users := users[i := WithRole(users[i], row.roleName)];
      RowDone(rows[..n], row, before, at, i);
      at := WithFirst(at, before, row, n);
    }
    assert rows[..|rows|] == rows;
  }

  function WithRole(u: Listed, role: Option<string>): Listed {
    if role.Some? && role.value != "" && role.value !in u.roles then u.(roles := u.roles + [role.value]) else u
  }

  function WithUser(users: seq<Listed>, user: UserRow): (r: seq<Listed>)
    ensures HasUser(r, user.userId)
  {
    if HasUser(users, user.userId) then users
    else
      var r := users + [Listed(user, [])];
      assert r[|users|].user == user;
      r
  }

  /** What one row changes: its user gains its role, and is added at the end if new. */
  ghost predicate Stepped(users: seq<Listed>, row: ResultRow, after: seq<Listed>) {
    && |after| == |users| + (if HasUser(users, row.user.userId) then 0 else 1)
    && (forall k :: 0 <= k < |users| ==>
          after[k] == if users[k].user.userId == row.user.userId then WithRole(users[k], row.roleName) else users[k])
    && (!HasUser(users, row.user.userId) ==> after[|users|] == WithRole(Listed(row.user, []), row.roleName))
  }

  predicate UniqueUsers(users: seq<Listed>) {
    forall i, j :: 0 <= i < j < |users| ==> users[i].user.userId != users[j].user.userId
  }

  /** A new user's first row is this one. */
  function WithFirst(at: seq<nat>, users: seq<Listed>, row: ResultRow, n: nat): seq<nat> {
    if HasUser(users, row.user.userId) then at else at + [n]
  }

  lemma RowDone(rows: seq<ResultRow>, row: ResultRow, users: seq<Listed>, at: seq<nat>, i: nat)
    requires Grouped(rows, users, at)
    requires var mid := WithUser(users, row.user); i < |mid| && mid[i].user.userId == row.user.userId
    ensures var mid := WithUser(users, row.user);
      Grouped(rows + [row], mid[i := WithRole(mid[i], row.roleName)], WithFirst(at, users, row, |rows|))
  {
    var mid := WithUser(users, row.user);
    assert WithFirst(at, users, row, |rows|)[..|users|] == at;
    GroupedOneMore(rows, row, users, mid[i := WithRole(mid[i], row.roleName)], WithFirst(at, users, row, |rows|));
  }

  lemma GroupedOneMore(rows: seq<ResultRow>, row: ResultRow, users: seq<Listed>, after: seq<Listed>, at: seq<nat>)
    requires |at| == |after| && Stepped(users, row, after)
    requires Grouped(rows, users, at[..|users|]) && (|after| > |users| ==> at[|users|] == |rows|)
    ensures Grouped(rows + [row], after, at)
  {
    FirstRowsOneMore(rows, row, users, after, at);
    forall k | 0 <= k < |after| ensures RolesFit(rows + [row], after[k]) {
      if k >= |users| {
        assert RolesFit(rows, Listed(row.user, []));
      }
    }
  }

  lemma FirstRowsOneMore(rows: seq<ResultRow>, row: ResultRow, users: seq<Listed>, after: seq<Listed>, at: seq<nat>)
    requires |at| == |after| && Stepped(users, row, after)
    requires FirstRows(rows, users, at[..|users|]) && (|after| > |users| ==> at[|users|] == |rows|)
    ensures FirstRows(rows + [row], after, at)
  {
  }

  // ---------------------------------------------------------------- the page comes out again

  predicate HasRole(mappings: seq<RoleMapping>, userId: string, tenant: string, names: map<string, string>,
                    role: string) {
    exists m :: m in mappings && m.userId == userId && m.tenantId == tenant && m.roleId in names
      && names[m.roleId] == role
  }

  lemma {:induction false} MappedRolesAre(userId: string, tenant: string, mappings: seq<RoleMapping>,
                                          names: map<string, string>, role: string)
    ensures Some(role) in MappedRoles(userId, tenant, mappings, names)
      <==> HasRole(mappings, userId, tenant, names, role)
  {
    if mappings != [] {
      MappedRolesAre(userId, tenant, mappings[1..], names, role);
      assert forall m :: m in mappings <==> m == mappings[0] || m in mappings[1..];
    }
  }

  lemma {:induction false} RowsForAre(u: UserRow, total: nat, roles: seq<Option<string>>, r: ResultRow)
    ensures r in RowsFor(u, total, roles) <==> r.user == u && r.totalCount == total && r.roleName in roles
  {
    if roles != [] {
      RowsForAre(u, total, roles[1..], r);
    }
  }

  function OrNone(roles: seq<Option<string>>): seq<Option<string>> {
    if roles == [] then [None] else roles
  }

  lemma {:induction false} JoinRolesAre(page: seq<UserRow>, total: nat, tenant: string, mappings: seq<RoleMapping>,
                                        names: map<string, string>, r: ResultRow)
    ensures r in JoinRoles(page, total, tenant, mappings, names)
      <==>
      && r.user in page && r.totalCount == total
      && r.roleName in OrNone(MappedRoles(r.user.userId, tenant, mappings, names))
  {
    if page != [] {
      JoinRolesAre(page[1..], total, tenant, mappings, names, r);
      RowsForAre(page[0], total, OrNone(MappedRoles(page[0].userId, tenant, mappings, names)), r);
      assert r.user in page <==> r.user == page[0] || r.user in page[1..];
    }
  }

  /** No user is on the page with two sets of columns, as one with two mappings to the tenant would be. */
  predicate NoRepeats(page: seq<UserRow>) {
    forall i, j :: 0 <= i < j < |page| ==> page[i].userId != page[j].userId
  }

  /** Not before the other in the order asked for. */
  predicate InOrder(a: int, b: int, descending: bool) {
    (descending && b <= a) || (!descending && a <= b)
  }

  /** Each user of the page once, in the order sorted by, with the columns of one of its rows there. */
  ghost predicate ListsUsers(page: seq<UserRow>, users: seq<Listed>, descending: bool) {
    && (forall i :: 0 <= i < |users| ==> users[i].user in page)
    && (forall u :: u in page ==> HasUser(users, u.userId))
    && (forall i, j :: 0 <= i < j < |users| ==>
          && users[i].user.userId != users[j].user.userId
          && InOrder(users[i].user.sortKey, users[j].user.sortKey, descending))
  }

  ghost predicate IsPage(page: seq<UserRow>, users: seq<Listed>, descending: bool) {
    && |users| == |page|
    && (forall u :: u in page <==> exists i :: 0 <= i < |users| && users[i].user == u)
    && (forall i, j :: 0 <= i < j < |users| ==>
          && users[i].user.userId != users[j].user.userId
          && InOrder(users[i].user.sortKey, users[j].user.sortKey, descending))
  }

  ghost predicate ExactRoles(u: Listed, tenant: string, mappings: seq<RoleMapping>, names: map<string, string>) {
    && (forall i, j :: 0 <= i < j < |u.roles| ==> u.roles[i] != u.roles[j])
    && forall role :: role in u.roles <==> role != "" && HasRole(mappings, u.user.userId, tenant, names, role)
  }

  lemma SameMembers(rows: seq<ResultRow>, joined: seq<ResultRow>, r: ResultRow)
    requires multiset(rows) == multiset(joined)
    ensures r in rows <==> r in joined
  {
    assert r in rows <==> r in multiset(rows);
    assert r in joined <==> r in multiset(joined);
  }

  /** The data behind one answer: the page, and the joined rows in any order the query allows. */
  datatype Query = Query(filtered: set<UserRow>, sorted: seq<UserRow>, offset: nat, limit: nat, descending: bool,
                         tenant: string, mappings: seq<RoleMapping>, names: map<string, string>)
  {
    function Page(): seq<UserRow> { Slice(sorted, offset, limit) }

    function Joined(): seq<ResultRow> { JoinRoles(Page(), |filtered|, tenant, mappings, names) }

    ghost predicate Allows(rows: seq<ResultRow>) {
      IsOrdering(filtered, sorted, descending) && IsResult(Joined(), rows, descending)
    }

    lemma RowIs(rows: seq<ResultRow>, r: ResultRow)
      requires Allows(rows)
      ensures r in rows <==>
        r.user in Page() && r.totalCount == |filtered|
          && r.roleName in OrNone(MappedRoles(r.user.userId, tenant, mappings, names))
    {
      SameMembers(rows, Joined(), r);
      JoinRolesAre(Page(), |filtered|, tenant, mappings, names, r);
    }

    lemma UserHasRow(rows: seq<ResultRow>, u: UserRow)
      requires Allows(rows)
      ensures u in Page() <==> exists r :: r in rows && r.user == u
    {
      if u in Page() {
        var r := ResultRow(u, |filtered|, OrNone(MappedRoles(u.userId, tenant, mappings, names))[0]);
        RowIs(rows, r);
      }
      if r :| r in rows && r.user == u {
        RowIs(rows, r);
      }
    }

    /** Each user's roles are exactly its role names in the tenant. */
    lemma RolesAreExact(rows: seq<ResultRow>, u: Listed)
      requires Allows(rows) && RolesFit(rows, u) && u.user in Page()
      ensures ExactRoles(u, tenant, mappings, names)
    {
      forall role ensures role in u.roles <==> role != "" && HasRole(mappings, u.user.userId, tenant, names, role) {
        MappedRolesAre(u.user.userId, tenant, mappings, names, role);
        RowIs(rows, ResultRow(u.user, |filtered|, Some(role)));
        if role in u.roles {
          var r :| r in rows && r.user.userId == u.user.userId && r.roleName == Some(role);
          RowIs(rows, r);
        }
      }
    }
  }

  function UserIds(rows: seq<UserRow>): set<string> {
    set u | u in rows :: u.userId
  }

  lemma OneMoreUser(rows: seq<UserRow>, u: UserRow)
    ensures UserIds(rows + [u]) == UserIds(rows) + {u.userId}
    ensures NoRepeats(rows + [u]) <==> NoRepeats(rows) && u.userId !in UserIds(rows)
  {
    assert forall i :: 0 <= i < |rows| ==> rows[i] in rows && (rows + [u])[i] == rows[i];
    assert (rows + [u])[|rows|] == u;
    if u.userId in UserIds(rows) {
      var i :| 0 <= i < |rows| && rows[i].userId == u.userId;
      assert (rows + [u])[i].userId == (rows + [u])[|rows|].userId;
    }
  }

  /** There are as many users as rows exactly when no user repeats. */
  lemma {:induction false} AsManyIff(rows: seq<UserRow>)
    ensures |UserIds(rows)| <= |rows| && (|UserIds(rows)| == |rows| <==> NoRepeats(rows))
  {
    if rows != [] {
      var n := |rows| - 1;
      AsManyIff(rows[..n]);
      OneMoreUser(rows[..n], rows[n]);
      assert rows == rows[..n] + [rows[n]];
    }
  }

  function Rows(users: seq<Listed>): seq<UserRow> {
    seq(|users|, i requires 0 <= i < |users| => users[i].user)
  }

  lemma ListedArePageUsers(q: Query, rows: seq<ResultRow>, users: seq<Listed>, at: seq<nat>)
    requires q.Allows(rows) && Grouped(rows, users, at)
    ensures ListsUsers(q.Page(), users, q.descending)
  {
    forall i | 0 <= i < |users| ensures users[i].user in q.Page() {
      assert rows[at[i]] in rows;
      q.UserHasRow(rows, users[i].user);
    }
    forall u | u in q.Page() ensures HasUser(users, u.userId) {
      q.UserHasRow(rows, u);
    }
    forall i, j | 0 <= i < j < |users| ensures Before(q.descending, users[i].user, users[j].user) {
      assert at[i] < at[j];
    }
  }

  lemma AsLongAsPageIff(page: seq<UserRow>, users: seq<Listed>, descending: bool)
    requires ListsUsers(page, users, descending)
    ensures |users| <= |page| && (|users| == |page| <==> NoRepeats(page))
  {
    assert forall i :: 0 <= i < |users| ==> Rows(users)[i] == users[i].user;
    assert forall i :: 0 <= i < |users| ==> users[i].user in Rows(users) by {
      assert forall i :: 0 <= i < |users| ==> Rows(users)[i] in Rows(users);
    }
    assert UserIds(Rows(users)) == UserIds(page);
    AsManyIff(Rows(users));
    AsManyIff(page);
  }

  lemma ListsThePage(page: seq<UserRow>, users: seq<Listed>, descending: bool, u: UserRow)
    requires ListsUsers(page, users, descending) && NoRepeats(page)
    ensures u in page <==> exists i :: 0 <= i < |users| && users[i].user == u
  {
    if u in page {
      var i :| 0 <= i < |users| && users[i].user.userId == u.userId;
      var j :| 0 <= j < |page| && page[j] == u;
      var k :| 0 <= k < |page| && page[k] == users[i].user;
      assert j == k;
    }
  }

  /**
   Whatever order the ties come in, twice: the answer lists each user of the page once, in the order
   sorted by, with exactly its roles in the tenant; it is as long as the page, and then is the page, if
   and only if no user is on the page twice. The total on every row counts the filtered rows, however
   many roles the users have.
   */
  lemma AnswerIsThePage(q: Query, rows: seq<ResultRow>, users: seq<Listed>, at: seq<nat>)
    requires q.Allows(rows) && Grouped(rows, users, at)
    ensures ListsUsers(q.Page(), users, q.descending) && |users| <= |q.Page()|
    ensures |users| == |q.Page()| <==> NoRepeats(q.Page())
    ensures NoRepeats(q.Page()) ==> IsPage(q.Page(), users, q.descending)
    ensures forall u :: u in users ==> ExactRoles(u, q.tenant, q.mappings, q.names)
    ensures forall r :: r in rows ==> r.totalCount == |q.filtered|
  {
    ListedArePageUsers(q, rows, users, at);
    AsLongAsPageIff(q.Page(), users, q.descending);
    if NoRepeats(q.Page()) {
      forall u ensures u in q.Page() <==> exists i :: 0 <= i < |users| && users[i].user == u {
        ListsThePage(q.Page(), users, q.descending, u);
      }
    }
    forall u | u in users ensures ExactRoles(u, q.tenant, q.mappings, q.names) {
      var i :| 0 <= i < |users| && users[i] == u;
      q.RolesAreExact(rows, u);
    }
    forall r | r in rows ensures r.totalCount == |q.filtered| {
      q.RowIs(rows, r);
    }
  }

  lemma {:induction false} CountsOnce(a: seq<UserRow>)
    requires forall i, j :: 0 <= i < j < |a| ==> a[i] != a[j]
    ensures |set u | u in a| == |a|
  {
    if a != [] {
      var n := |a| - 1;
      CountsOnce(a[..n]);
      assert a == a[..n] + [a[n]];
      assert (set u | u in a) == (set u | u in a[..n]) + {a[n]};
    }
  }

  /** The total that is reported: that of the first row, or zero. */
  function Reported(rows: seq<ResultRow>): nat {
    if rows == [] then 0 else rows[0].totalCount
  }

  /** The reported total is right exactly when the page has a user on it or there is no user at all. */
  lemma TotalIsRightIff(q: Query, rows: seq<ResultRow>)
    requires q.Allows(rows)
    ensures Reported(rows) == |q.filtered| <==> (q.offset < |q.filtered| && q.limit > 0) || q.filtered == {}
  {
    CountsOnce(q.sorted);
    assert (set u | u in q.sorted) == q.filtered;
    if q.offset < |q.filtered| && q.limit > 0 {
      assert q.Page()[0] in q.Page();
      q.UserHasRow(rows, q.Page()[0]);
    } else {
      assert q.Page() == [];
    }
    if rows != [] {
      q.RowIs(rows, rows[0]);
    }
  }
}
