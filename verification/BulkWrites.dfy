/**
 The writes a bulk request comes to make, whatever the table holds: what the table holds afterwards and
 who is affected follow from them under any failures, and so does whether the cache hears of the changes.
 */
module BulkWrites {
  import opened BulkMembers
  import opened CohortMember
  import opened JsValues
  import CacheCallers

  /** A write that reaches the database: which seat, whether it gives or takes, and how it ends. */
  datatype Write = Write(seat: Seat, gives: bool, end: Fault)

  /** What a request comes to do, whatever the table holds: the years, the users and the failures decide it. */
  datatype Plan = Plan(writes: seq<Write>, clock: nat, thrown: bool)
  {
    function Tick(): Plan { this.(clock := clock + 1) }

    function Then(write: Write): Plan { Plan(writes + [write], clock + 1, thrown) }
  }

  predicate ReachesUpdate(w: World, cohort: string, at: nat) {
    !w.Throws(FindYears, at) && w.YearOf(cohort) != None
  }

  predicate ReachesSave(w: World, cohort: string, at: nat) {
    ReachesUpdate(w, cohort, at) && !w.Throws(FindMapping, at + 1)
  }

  function UpdateAt(w: World, userId: string, cohort: string, at: nat): Write
    requires ReachesUpdate(w, cohort, at)
  {
    Write(Seat(userId, cohort, w.YearOf(cohort).value), false, w.faults(UpdateRows, at + 1))
  }

  function SaveAt(w: World, userId: string, cohort: string, at: nat): Write
    requires ReachesSave(w, cohort, at)
  {
    Write(Seat(userId, cohort, w.YearOf(cohort).value), true, w.faults(SaveRow, at + 2))
  }

  function PlanRemove(w: World, p: Plan, userId: string, cohort: string): Plan {
    if ReachesUpdate(w, cohort, p.clock) then p.Tick().Then(UpdateAt(w, userId, cohort, p.clock)) else p.Tick()
  }

  function PlanAdd(w: World, p: Plan, userId: string, cohort: string): Plan {
    if ReachesSave(w, cohort, p.clock) then p.Tick().Tick().Then(SaveAt(w, userId, cohort, p.clock))
    else if ReachesUpdate(w, cohort, p.clock) then p.Tick().Tick() else p.Tick()
  }

  function PlanRemoves(w: World, p: Plan, userId: string, cohorts: seq<string>): Plan {
    if cohorts == [] then p
    else
      var n := |cohorts| - 1;
      PlanRemove(w, PlanRemoves(w, p, userId, cohorts[..n]), userId, cohorts[n])
  }

  function PlanAdds(w: World, p: Plan, userId: string, cohorts: seq<string>): Plan {
    if cohorts == [] then p
    else
      var n := |cohorts| - 1;
      PlanAdd(w, PlanAdds(w, p, userId, cohorts[..n]), userId, cohorts[n])
  }

  function PlanUser(w: World, q: Request, p: Plan, userId: string): Plan {
    if w.Throws(FindUser, p.clock) then p.Tick().(thrown := true)
    else if userId !in w.known then p.Tick()
    else PlanAdds(w, PlanRemoves(w, p.Tick(), userId, q.removes), userId, q.adds)
  }

  function PlanUsers(w: World, q: Request, p: Plan, users: seq<string>): Plan {
    if users == [] then p
    else
      var n := |users| - 1;
      var r := PlanUsers(w, q, p, users[..n]);
      if r.thrown then r else PlanUser(w, q, r, users[n])
  }

  function PlanOf(w: World, q: Request, clock: nat): Plan {
    PlanUsers(w, q, Plan([], clock, false), q.users)
  }

  /** The rows of a seat, in order. */
  function RowsFor(rows: seq<Member>, seat: Seat): seq<Member> {
    if rows == [] then []
    else (if rows[0].seat == seat then [rows[0]] else []) + RowsFor(rows[1..], seat)
  }

  lemma {:induction false} RowsThere(rows: seq<Member>, seat: Seat)
    ensures RowsFor(rows, seat) != [] <==> HasRow(rows, seat)
  {
    if rows != [] {
      RowsThere(rows[1..], seat);
      assert rows == [rows[0]] + rows[1..];
    }
  }

  /** What a write makes of the rows of a seat: nothing unless it is that seat's and takes effect. */
  function Effect(q: Request, write: Write, seat: Seat, rows: seq<Member>): seq<Member> {
    if write.seat != seat || write.end == Refused then rows
    else if !write.gives then Reassigned(rows, seat)
    else if rows == [] then [Fresh(q, seat)]
    else [Merged(q, rows[0])] + rows[1..]
  }

  /** The rows of a seat once the writes are done, from the rows it had. */
  function After(q: Request, writes: seq<Write>, seat: Seat, rows: seq<Member>): seq<Member> {
    if writes == [] then rows
    else
      var n := |writes| - 1;
      Effect(q, writes[n], seat, After(q, writes[..n], seat, rows))
  }

  /** The write's step is answered without an error about a row: it gives, or it finds a row to take. */
  predicate IsAnswered(q: Request, rows: seq<Member>, writes: seq<Write>, i: nat)
    requires i < |writes|
  {
    var k := writes[i].seat;
    writes[i].end == Fine && (writes[i].gives || After(q, writes[..i], k, RowsFor(rows, k)) != [])
  }

  ghost predicate Answered(q: Request, rows: seq<Member>, writes: seq<Write>, userId: string) {
    exists i :: 0 <= i < |writes| && writes[i].seat.userId == userId && IsAnswered(q, rows, writes, i)
  }

  lemma OneMoreWrite(q: Request, rows: seq<Member>, writes: seq<Write>, write: Write, userId: string)
    ensures var all := writes + [write];
      && all[..|writes|] == writes
      && (Answered(q, rows, all, userId)
          <==> Answered(q, rows, writes, userId) || (write.seat.userId == userId && IsAnswered(q, rows, all, |writes|)))
  {
    var all := writes + [write];
    assert forall i :: 0 <= i <= |writes| ==> all[..i] == (if i == |all| then all else writes[..i]);
    assert forall i :: 0 <= i < |writes| ==> IsAnswered(q, rows, all, i) == IsAnswered(q, rows, writes, i);
    if Answered(q, rows, writes, userId) {
      var i :| 0 <= i < |writes| && writes[i].seat.userId == userId && IsAnswered(q, rows, writes, i);
      assert all[i].seat.userId == userId && IsAnswered(q, rows, all, i);
    }
    if write.seat.userId == userId && IsAnswered(q, rows, all, |writes|) {
      assert all[|writes|].seat.userId == userId;
    }
  }

  lemma ReassignedFrom(row: Member, rows: seq<Member>, seat: Seat)
    ensures Reassigned([row] + rows, seat) == Reassigned([row], seat) + Reassigned(rows, seat)
  {
  }

  lemma {:induction false} ReassignedRows(rows: seq<Member>, seat: Seat, k: Seat)
    ensures RowsFor(Reassigned(rows, seat), k)
         == if k == seat then Reassigned(RowsFor(rows, k), k) else RowsFor(rows, k)
  {
    if rows != [] {
      var row := Reassigned([rows[0]], seat)[0];
      assert rows == [rows[0]] + rows[1..] && Reassigned([rows[0]], seat) == [row];
      ReassignedFrom(rows[0], rows[1..], seat);
      ReassignedRows(rows[1..], seat, k);
      if rows[0].seat == k == seat {
        ReassignedFrom(rows[0], RowsFor(rows[1..], k), seat);
      }
    } else {
      assert Reassigned(rows, seat) == [];
    }
  }

  lemma RowsFrom(head: Member, rows: seq<Member>, k: Seat)
    ensures RowsFor([head] + rows, k) == (if head.seat == k then [head] else []) + RowsFor(rows, k)
  {
    assert ([head] + rows)[1..] == rows;
  }

  lemma PutFrom(head: Member, rows: seq<Member>, row: Member)
    ensures Put([head] + rows, row) == if head.seat == row.seat then [row] + rows else [head] + Put(rows, row)
  {
    assert ([head] + rows)[1..] == rows;
  }

  lemma {:induction false} PutRows(rows: seq<Member>, row: Member, k: Seat)
    ensures RowsFor(Put(rows, row), k)
         == if k != row.seat then RowsFor(rows, k)
            else [row] + if RowsFor(rows, k) == [] then [] else RowsFor(rows, k)[1..]
  {
    if rows == [] {
      assert Put(rows, row) == [row] + [];
    } else {
      var head, rest := rows[0], rows[1..];
      assert rows == [head] + rest;
      PutFrom(head, rest, row);
      RowsFrom(head, rest, k);
      if head.seat != row.seat {
        RowsFrom(head, Put(rest, row), k);
        PutRows(rest, row, k);
      } else {
        RowsFrom(row, rest, k);
      }
    }
  }

  lemma {:induction false} FirstOf(rows: seq<Member>, k: Seat)
    ensures View(rows, k) == if RowsFor(rows, k) == [] then None else Some(RowsFor(rows, k)[0])
  {
    if rows != [] {
      FirstOf(rows[1..], k);
    }
  }

  lemma WriteTakesEffect(q: Request, rows: seq<Member>, write: Write, k: Seat)
    ensures write.gives ==>
      RowsFor(if write.end == Refused then rows else Stored(q, rows, write.seat), k)
        == Effect(q, write, k, RowsFor(rows, k))
    ensures !write.gives ==>
      RowsFor(if write.end == Refused then rows else Reassigned(rows, write.seat), k)
      == Effect(q, write, k, RowsFor(rows, k))
  {
    FirstOf(rows, write.seat);
    PutRows(rows, NewRow(q, View(rows, write.seat), write.seat), k);
    ReassignedRows(rows, write.seat, k);
  }

  /** The state is what the plan says it is, starting from these rows. */
  ghost predicate Follows(q: Request, rows: seq<Member>, s: State, p: Plan) {
    && s.clock == p.clock && s.thrown == p.thrown
    && (forall k :: RowsFor(s.rows, k) == After(q, p.writes, k, RowsFor(rows, k)))
    && (forall u :: u in s.affected <==> Answered(q, rows, p.writes, u))
  }

  /** A step that reaches a write, or ends before it. */
  predicate Wrote(q: Request, s: State, write: Write, next: State) {
    && next.clock == s.clock + 1 && next.thrown == s.thrown
    && next.rows == (if write.end == Refused then s.rows
                     else if write.gives then Stored(q, s.rows, write.seat) else Reassigned(s.rows, write.seat))
    && next.affected == s.affected + if write.end == Fine && (write.gives || HasRow(s.rows, write.seat))
                                     then {write.seat.userId} else {}
  }

  predicate Idled(s: State, next: State) {
    next.thrown == s.thrown && next.rows == s.rows && next.affected == s.affected
  }

  lemma WriteFollows(q: Request, rows: seq<Member>, s: State, p: Plan, write: Write, next: State)
    requires Follows(q, rows, s, p) && Wrote(q, s, write, next)
    ensures Follows(q, rows, next, p.Then(write))
  {
    assert p.Then(write).writes[..|p.writes|] == p.writes;
    forall k ensures RowsFor(next.rows, k) == After(q, p.Then(write).writes, k, RowsFor(rows, k)) {
      WriteTakesEffect(q, s.rows, write, k);
    }
    RowsThere(s.rows, write.seat);
    forall u ensures u in next.affected <==> Answered(q, rows, p.Then(write).writes, u) {
      OneMoreWrite(q, rows, p.writes, write, u);
    }
  }

  lemma RemovedWrites(w: World, q: Request, s: State, userId: string, cohort: string)
    ensures var r := Removed(w, q, s, userId, cohort);
      if ReachesUpdate(w, cohort, s.clock) then Wrote(q, s.Tick(), UpdateAt(w, userId, cohort, s.clock), r)
      else Idled(s, r) && r.clock == s.clock + 1
  {
  }

  lemma AddedWrites(w: World, q: Request, s: State, userId: string, cohort: string)
    ensures var a := Added(w, q, s, userId, cohort);
      if ReachesSave(w, cohort, s.clock) then Wrote(q, s.Tick().Tick(), SaveAt(w, userId, cohort, s.clock), a)
      else Idled(s, a) && a.clock == s.clock + if ReachesUpdate(w, cohort, s.clock) then 2 else 1
  {
  }

  lemma RemovedFollows(w: World, q: Request, rows: seq<Member>, s: State, p: Plan, userId: string, cohort: string)
    requires Follows(q, rows, s, p)
    ensures Follows(q, rows, Removed(w, q, s, userId, cohort), PlanRemove(w, p, userId, cohort))
  {
    var r := Removed(w, q, s, userId, cohort);
    RemovedWrites(w, q, s, userId, cohort);
    if ReachesUpdate(w, cohort, s.clock) {
      WriteFollows(q, rows, s.Tick(), p.Tick(), UpdateAt(w, userId, cohort, s.clock), r);
    } else {
    }
  }

  lemma AddedFollows(w: World, q: Request, rows: seq<Member>, s: State, p: Plan, userId: string, cohort: string)
    requires Follows(q, rows, s, p)
    ensures Follows(q, rows, Added(w, q, s, userId, cohort), PlanAdd(w, p, userId, cohort))
  {
    var a := Added(w, q, s, userId, cohort);
    AddedWrites(w, q, s, userId, cohort);
    if ReachesSave(w, cohort, s.clock) {
      WriteFollows(q, rows, s.Tick().Tick(), p.Tick().Tick(), SaveAt(w, userId, cohort, s.clock), a);
    } else {
    }
  }

  lemma {:induction false} RemovesFollow(w: World, q: Request, rows: seq<Member>, s: State, p: Plan, userId: string,
                                         cohorts: seq<string>)
    requires Follows(q, rows, s, p)
    ensures Follows(q, rows, RemovedAll(w, q, s, userId, cohorts), PlanRemoves(w, p, userId, cohorts))
    decreases |cohorts|
  {
    if cohorts != [] {
      var n := |cohorts| - 1;
      RemovesFollow(w, q, rows, s, p, userId, cohorts[..n]);
      RemovedFollows(w, q, rows, RemovedAll(w, q, s, userId, cohorts[..n]), PlanRemoves(w, p, userId, cohorts[..n]),
        userId, cohorts[n]);
    }
  }

  lemma {:induction false} AddsFollow(w: World, q: Request, rows: seq<Member>, s: State, p: Plan, userId: string,
                                      cohorts: seq<string>)
    requires Follows(q, rows, s, p)
    ensures Follows(q, rows, AddedAll(w, q, s, userId, cohorts), PlanAdds(w, p, userId, cohorts))
    decreases |cohorts|
  {
    if cohorts != [] {
      var n := |cohorts| - 1;
      AddsFollow(w, q, rows, s, p, userId, cohorts[..n]);
      AddedFollows(w, q, rows, AddedAll(w, q, s, userId, cohorts[..n]), PlanAdds(w, p, userId, cohorts[..n]),
        userId, cohorts[n]);
    }
  }

  lemma {:induction false} RunFollows(w: World, q: Request, rows: seq<Member>, s: State, p: Plan, users: seq<string>)
    requires Follows(q, rows, s, p)
    ensures Follows(q, rows, Run(w, q, s, users), PlanUsers(w, q, p, users))
    decreases |users|
  {
    if users != [] {
      var n := |users| - 1;
      RunFollows(w, q, rows, s, p, users[..n]);
      var r, m := Run(w, q, s, users[..n]), PlanUsers(w, q, p, users[..n]);
      if !r.thrown && !w.Throws(FindUser, r.clock) && users[n] in w.known {
        RemovesFollow(w, q, rows, r.Tick(), m.Tick(), users[n], q.removes);
        AddsFollow(w, q, rows, RemovedAll(w, q, r.Tick(), users[n], q.removes),
          PlanRemoves(w, m.Tick(), users[n], q.removes), users[n], q.adds);
      }
    }
  }

  /**
   However the calls end: what the table holds, who is affected and whether a call threw out of the
   loop follow from the writes the request comes to make and from the rows there were.
   */
  lemma RunIsAsPlanned(w: World, q: Request, rows: seq<Member>, clock: nat, k: Seat, userId: string)
    ensures var r, p := Run(w, q, Begin(rows, clock), q.users), PlanOf(w, q, clock);
      && r.thrown == p.thrown
      && RowsFor(r.rows, k) == After(q, p.writes, k, RowsFor(rows, k))
      && (userId in r.affected <==> Answered(q, rows, p.writes, userId))
  {
    RunFollows(w, q, rows, Begin(rows, clock), Plan([], clock, false), q.users);
  }

  /** The namespaces that cached results about the owner's memberships depend on. */
  function Depends(q: Request, userId: string): set<string> {
    {"user:" + userId, "cohortmember:" + q.tenant, "userlist:" + q.tenant}
  }

  /** The cached reads of a tenant's members, users and own cohorts, and of the core row, depend on one of them. */
  lemma ReadsOfMembersDepend(q: Request, userId: string, r: CacheCallers.Read)
    requires || ((r.UserList? || r.MembersRead? || r.MembersSearch? || r.MyCohorts?) && r.tenant == q.tenant)
             || (r.UserCore? && r.user == userId)
    ensures exists n :: n in Depends(q, userId) && n in CacheCallers.Req(r).Names()
  {
    CacheCallers.UserBumpsReach(r, userId);
    CacheCallers.TenantBumpsReach(r, q.tenant);
    var n := if r.UserCore? then "user:" + userId
             else if r.UserList? then "userlist:" + q.tenant else "cohortmember:" + q.tenant;
    assert n in Depends(q, userId);
  }

  /** The namespaces bumped in the end: none when a call threw out of the loop. */
  function BumpedBy(q: Request, r: State): set<string> {
    if r.thrown then {} else Bumped(q, r.affected)
  }

  lemma BumpsOwners(q: Request, r: State, userId: string)
    ensures Depends(q, userId) <= BumpedBy(q, r) <==> !r.thrown && userId in r.affected
  {
    if r.thrown {
      assert "user:" + userId in Depends(q, userId);
    } else {
      BumpedUsers(q, r.affected, userId);
    }
  }

  lemma BumpedUsers(q: Request, affected: set<string>, userId: string)
    ensures Depends(q, userId) <= Bumped(q, affected) <==> userId in affected
  {
    if userId in affected {
      assert "user:" + userId in Bumped(q, affected);
    }
    if "user:" + userId in Bumped(q, affected) {
      assert ("user:" + userId)[4] == ':' && ("userlist:" + q.tenant)[4] == 'l';
      assert ("user:" + userId)[0] == 'u' && ("cohortmember:" + q.tenant)[0] == 'c';
      var id :| id in affected && "user:" + id == "user:" + userId;
      assert ("user:" + id)[5..] == id && ("user:" + userId)[5..] == userId;
    }
    assert "user:" + userId in Depends(q, userId);
  }

  /** Whoever holds a seat whose rows end otherwise than they began has his namespaces bumped. */
  ghost predicate Announced(q: Request, before: seq<Member>, after: seq<Member>, bumped: set<string>) {
    forall k :: RowsFor(after, k) != RowsFor(before, k) ==> Depends(q, k.userId) <= bumped
  }

  /**
   What the request leaves is announced to the cache exactly when every seat that its writes change
   belongs to a user with an answered step, and no search for a user's record throws; if one does, the
   writes made before it must have left everything as it was.
   */
  lemma ChangesAreAnnouncedIff(w: World, q: Request, rows: seq<Member>, clock: nat)
    ensures var r, p := Run(w, q, Begin(rows, clock), q.users), PlanOf(w, q, clock);
      Announced(q, rows, r.rows, BumpedBy(q, r))
      <==> forall k :: After(q, p.writes, k, RowsFor(rows, k)) == RowsFor(rows, k)
                       || (!p.thrown && Answered(q, rows, p.writes, k.userId))
  {
    var r := Run(w, q, Begin(rows, clock), q.users);
    forall k: Seat
      ensures RowsFor(r.rows, k) == After(q, PlanOf(w, q, clock).writes, k, RowsFor(rows, k))
      ensures Depends(q, k.userId) <= BumpedBy(q, r)
              <==> !PlanOf(w, q, clock).thrown && Answered(q, rows, PlanOf(w, q, clock).writes, k.userId)
    {
      RunIsAsPlanned(w, q, rows, clock, k, k.userId);
      BumpsOwners(q, r, k.userId);
    }
  }

  /** The write changes the rows it finds. */
  predicate Changes(q: Request, rows: seq<Member>, writes: seq<Write>, i: nat)
    requires i < |writes|
  {
    var k := writes[i].seat;
    var found := After(q, writes[..i], k, RowsFor(rows, k));
    Effect(q, writes[i], k, found) != found
  }

  lemma ReturnedChangeIsAnswered(q: Request, rows: seq<Member>, writes: seq<Write>, i: nat)
    requires i < |writes| && Changes(q, rows, writes, i) && writes[i].end == Fine
    ensures Answered(q, rows, writes, writes[i].seat.userId)
  {
    assert Reassigned([], writes[i].seat) == [];
    assert IsAnswered(q, rows, writes, i);
  }

  /**
   Every single change is announced, also one that a later write undoes, exactly when no search for a
   user's record throws after a change, and every change whose write threw all the same is one to a
   user who has an answered step besides.
   */
  lemma EachChangeIsAnnouncedIff(w: World, q: Request, rows: seq<Member>, clock: nat)
    ensures var r, p := Run(w, q, Begin(rows, clock), q.users), PlanOf(w, q, clock);
      (forall i :: 0 <= i < |p.writes| && Changes(q, rows, p.writes, i) ==>
         Depends(q, p.writes[i].seat.userId) <= BumpedBy(q, r))
      <==> forall i :: 0 <= i < |p.writes| && Changes(q, rows, p.writes, i) ==>
             !p.thrown && (p.writes[i].end == Landed ==> Answered(q, rows, p.writes, p.writes[i].seat.userId))
  {
    var r, p := Run(w, q, Begin(rows, clock), q.users), PlanOf(w, q, clock);
    forall i | 0 <= i < |p.writes| && Changes(q, rows, p.writes, i)
      ensures Depends(q, p.writes[i].seat.userId) <= BumpedBy(q, r)
              <==> !p.thrown && (p.writes[i].end == Landed ==> Answered(q, rows, p.writes, p.writes[i].seat.userId))
    {
      RunIsAsPlanned(w, q, rows, clock, p.writes[i].seat, p.writes[i].seat.userId);
      BumpsOwners(q, r, p.writes[i].seat.userId);
      if p.writes[i].end == Fine {
        ReturnedChangeIsAnswered(q, rows, p.writes, i);
      }
    }
  }

  /** Such a throw does happen: the first user is added, and the search for the second user's record throws. */
  lemma ThrowLeavesChangeUnannounced(tenant: string)
    ensures var w := World({"u"}, map["c" := ["y"]],
        (op: Op, t: nat) => if op == FindUser && t == 4 then Refused else Fine);
      var q := Request("login", tenant, ["u", "x"], [], ["c"], None, None);
      var r := Run(w, q, Begin([], 0), q.users);
      r.thrown && r.rows == [Fresh(q, Seat("u", "c", "y"))] && !Announced(q, [], r.rows, BumpedBy(q, r))
  {
    var w := World({"u"}, map["c" := ["y"]], (op: Op, t: nat) => if op == FindUser && t == 4 then Refused else Fine);
    var q := Request("login", tenant, ["u", "x"], [], ["c"], None, None);
    var s := Begin([], 0);
    assert q.users[..0] == [] && q.users[..1] == ["u"] && ["u"][..0] == [] && ["c"][..0] == [];
    var a := Added(w, q, s.Tick(), "u", "c");
    assert a.rows == [Fresh(q, Seat("u", "c", "y"))] && a.clock == 4 && !a.thrown;
    assert AddedAll(w, q, s.Tick(), "u", ["c"]) == a;
    assert Run(w, q, s, ["u"]) == a;
    LoneRowIsHeard(q, Run(w, q, s, q.users));
  }

  lemma LoneRowIsHeard(q: Request, r: State)
    requires r.rows == [Fresh(q, Seat("u", "c", "y"))] && (r.thrown || r.affected == {})
    ensures !Announced(q, [], r.rows, BumpedBy(q, r))
  {
    var k := Seat("u", "c", "y");
    assert RowsFor(r.rows, k) != RowsFor([], k);
    BumpsOwners(q, r, k.userId);
  }

  /**
   So does the other case: one user, one cohort to add, and the row is stored though the call that stores
   it throws.
   */
  lemma StoredRowGoesUnannounced(tenant: string)
    ensures var w := World({"u"}, map["c" := ["y"]],
        (op: Op, t: nat) => if op == SaveRow && t == 3 then Landed else Fine);
      var q := Request("login", tenant, ["u"], [], ["c"], None, None);
      var r := Run(w, q, Begin([], 0), q.users);
      && !r.thrown && r.rows == [Fresh(q, Seat("u", "c", "y"))] && r.affected == {}
      && !Announced(q, [], r.rows, BumpedBy(q, r))
  {
    var w := World({"u"}, map["c" := ["y"]], (op: Op, t: nat) => if op == SaveRow && t == 3 then Landed else Fine);
    var q := Request("login", tenant, ["u"], [], ["c"], None, None);
    var s := Begin([], 0);
    assert q.users[..0] == [] && ["c"][..0] == [];
    var a := Added(w, q, s.Tick(), "u", "c");
    assert a.rows == [Fresh(q, Seat("u", "c", "y"))] && a.affected == {} && !a.thrown;
    assert AddedAll(w, q, s.Tick(), "u", ["c"]) == a;
    assert Run(w, q, s, q.users) == a;
    LoneRowIsHeard(q, a);
  }
}
