/**
 Bulk membership update: for each user of the request, some cohorts are taken away and some are
 given, in place, each step on its own and with its failure caught. What the table holds afterwards
 is a function of what it held before and of how often the request names each user and cohort.
 */
module BulkMembers {
  import opened JsValues
  import opened CohortMember

  /** The tenant for which an existing row takes the requested status instead of ACTIVE. */
  const SpecialTenant := "6c8b810a-66c2-4f0d-8c0c-c025415a4414"

  datatype Request = Request(
    login: string, tenant: string, users: seq<string>, removes: seq<string>, adds: seq<string>,
    status: Option<MemberStatus>, role: Option<string>)

  datatype Op = FindUser | FindYears | UpdateRows | FindMapping | SaveRow

  /** What the update reads and does not change, and how each of its calls ends. */
  datatype World = World(known: set<string>, years: map<string, seq<string>>, faults: (Op, nat) -> Fault)
  {
    predicate Throws(op: Op, at: nat) { faults(op, at) != Fine }

    predicate Takes(op: Op, at: nat) { faults(op, at) != Refused }

    /** The cohort's mapping for the academic year, the first one when there are several. */
    function YearOf(cohort: string): Option<string> {
      if cohort in years && years[cohort] != [] then Some(years[cohort][0]) else None
    }
  }

  datatype Failure =
    | UserNotExist(userId: string)
    | CohortNotFound(cohortId: string)
    | UpdateFailed(userId: string, cohortId: string)
    | SaveFailed(userId: string, cohortId: string)

  datatype Answer =
    | NotMapped(cohortId: string, userId: string)
    | StatusUpdated(cohortId: string, userId: string)
    | Saved(row: Member)

  /** `thrown` says that the call for a user's record threw: nothing catches that one. */
  datatype State = State(
    rows: seq<Member>, affected: set<string>, results: seq<Answer>, errors: seq<Failure>, clock: nat, thrown: bool)
  {
    function Tick(): State { this.(clock := clock + 1) }

    function Fail(f: Failure): State { this.(errors := errors + [f]) }

    function Did(a: Answer, userId: string): State { this.(results := results + [a], affected := affected + {userId}) }
  }

  /** Each request starts with nothing answered and nobody affected. */
  function Begin(rows: seq<Member>, clock: nat): State {
    State(rows, {}, [], [], clock, false)
  }

  // ---------------------------------------------------------------- rows

  /** The position of the first row for a seat. */
  function FirstAt(rows: seq<Member>, seat: Seat): (j: nat)
    ensures j <= |rows|
    ensures forall k :: 0 <= k < j ==> rows[k].seat != seat
    ensures j < |rows| ==> rows[j].seat == seat
  {
    if rows == [] || rows[0].seat == seat then 0 else 1 + FirstAt(rows[1..], seat)
  }

  function View(rows: seq<Member>, seat: Seat): Option<Member> {
    var j := FirstAt(rows, seat);
    if j < |rows| then Some(rows[j]) else None
  }

  function Reassigned(rows: seq<Member>, seat: Seat): (r: seq<Member>)
    ensures |r| == |rows|
    ensures forall i :: 0 <= i < |rows| ==>
      r[i] == if rows[i].seat == seat then rows[i].(status := REASSIGNED) else rows[i]
  {
    seq(|rows|, i requires 0 <= i < |rows| =>
      if rows[i].seat == seat then rows[i].(status := REASSIGNED) else rows[i])
  }

  /** The row that replaces an existing one. */
  function Merged(q: Request, row: Member): Member {
    row.(
      status := if q.tenant != SpecialTenant then ACTIVE else if q.status.Some? then q.status.value else row.status,
      role := if q.role.Some? then q.role else row.role, updatedBy := q.login)
  }

  /** The row inserted where there is none; the table's default status is ACTIVE. */
  function Fresh(q: Request, seat: Seat): Member {
    Member(seat, if q.status.Some? then q.status.value else ACTIVE, q.role, q.login, q.login)
  }

  function NewRow(q: Request, existing: Option<Member>, seat: Seat): Member {
    match existing
    case Some(row) => Merged(q, row)
    case None => Fresh(q, seat)
  }

  /** The row takes the place of the first one for its seat, or the end of the table. */
  function Put(rows: seq<Member>, row: Member): seq<Member> {
    var j := FirstAt(rows, row.seat);
    if j < |rows| then rows[j := row] else rows + [row]
  }

  function Stored(q: Request, rows: seq<Member>, seat: Seat): seq<Member> {
    Put(rows, NewRow(q, View(rows, seat), seat))
  }

  // ---------------------------------------------------------------- what the update does

  function Removed(w: World, q: Request, s: State, userId: string, cohort: string): State {
    var s1 := s.Tick();
    if w.Throws(FindYears, s.clock) then s1.Fail(UpdateFailed(userId, cohort))
    else if w.YearOf(cohort) == None then s1.Fail(CohortNotFound(cohort))
    else
      var seat := Seat(userId, cohort, w.YearOf(cohort).value);
      var s2 := s1.Tick().(rows := if w.Takes(UpdateRows, s1.clock) then Reassigned(s.rows, seat) else s.rows);
      if w.Throws(UpdateRows, s1.clock) then s2.Fail(UpdateFailed(userId, cohort))
      else if !HasRow(s.rows, seat) then s2.(results := s2.results + [NotMapped(cohort, userId)])
      else s2.Did(StatusUpdated(cohort, userId), userId)
  }

  function Added(w: World, q: Request, s: State, userId: string, cohort: string): State {
    var s1 := s.Tick();
    if w.Throws(FindYears, s.clock) then s1.Fail(SaveFailed(userId, cohort))
    else if w.YearOf(cohort) == None then s1.Fail(CohortNotFound(cohort))
    else
      var s2 := s1.Tick();
      if w.Throws(FindMapping, s1.clock) then s2.Fail(SaveFailed(userId, cohort))
      else
        var seat := Seat(userId, cohort, w.YearOf(cohort).value);
        var s3 := s2.Tick().(rows := if w.Takes(SaveRow, s2.clock) then Stored(q, s.rows, seat) else s.rows);
        if w.Throws(SaveRow, s2.clock) then s3.Fail(SaveFailed(userId, cohort))
        else s3.Did(Saved(NewRow(q, View(s.rows, seat), seat)), userId)
  }

  function RemovedAll(w: World, q: Request, s: State, userId: string, cohorts: seq<string>): State {
    if cohorts == [] then s
    else
      var n := |cohorts| - 1;
      Removed(w, q, RemovedAll(w, q, s, userId, cohorts[..n]), userId, cohorts[n])
  }

  function AddedAll(w: World, q: Request, s: State, userId: string, cohorts: seq<string>): State {
    if cohorts == [] then s
    else
      var n := |cohorts| - 1;
      Added(w, q, AddedAll(w, q, s, userId, cohorts[..n]), userId, cohorts[n])
  }

  /** One user of the request. */
  function Handled(w: World, q: Request, s: State, userId: string): State {
    if w.Throws(FindUser, s.clock) then s.Tick().(thrown := true)
    else if userId !in w.known then s.Tick().Fail(UserNotExist(userId))
    else AddedAll(w, q, RemovedAll(w, q, s.Tick(), userId, q.removes), userId, q.adds)
  }

  /** The users of the request in order, until a call throws out of the loop. */
  function Run(w: World, q: Request, s: State, users: seq<string>): State {
    if users == [] then s
    else
      var n := |users| - 1;
      var r := Run(w, q, s, users[..n]);
      if r.thrown then r else Handled(w, q, r, users[n])
  }

  lemma RunStep(w: World, q: Request, s: State, users: seq<string>, i: nat)
    requires i < |users|
    ensures users[..i + 1][..i] == users[..i]
    ensures var r := Run(w, q, s, users[..i]);
      Run(w, q, s, users[..i + 1]) == if r.thrown then r else Handled(w, q, r, users[i])
  {
  }

  lemma {:induction false} ThrownStays(w: World, q: Request, s: State, users: seq<string>, i: nat)
    requires i <= |users| && Run(w, q, s, users[..i]).thrown
    ensures Run(w, q, s, users) == Run(w, q, s, users[..i])
    decreases |users| - i
  {
    if i < |users| {
      RunStep(w, q, s, users, i);
      ThrownStays(w, q, s, users, i + 1);
    } else {
      assert users[..i] == users;
    }
  }

  /** The cache namespaces bumped once the loop is over: none when no user was affected. */
  function Bumped(q: Request, affected: set<string>): set<string> {
    if affected == {} then {}
    else (set id | id in affected :: "user:" + id) + {"cohortmember:" + q.tenant, "userlist:" + q.tenant}
  }

  // ---------------------------------------------------------------- the service

  class CohortMembersService {
    const world: World
    var rows: seq<Member>
    var affected: set<string>
    var results: seq<Answer>
    var errors: seq<Failure>
    var clock: nat

    constructor (world: World, rows: seq<Member>)
      ensures this.world == world && Now(false) == State(rows, {}, [], [], 0, false)
    {
      this.world, this.rows, this.affected, this.results, this.errors, this.clock := world, rows, {}, [], [], 0;
    }

    function Now(thrown: bool): State
      reads this
    {
      State(rows, affected, results, errors, clock, thrown)
    }

    /** One call to the database: whether it throws and whether it takes effect. */
    method Call(op: Op) returns (throws: bool, takes: bool)
      modifies `clock
      ensures Now(false) == old(Now(false)).Tick()
      ensures throws == world.Throws(op, old(clock)) && takes == world.Takes(op, old(clock))
    {
      throws, takes := world.Throws(op, clock), world.Takes(op, clock);
      clock := clock + 1;
    }

    method Remove(q: Request, userId: string, cohort: string)
      modifies this
      ensures Now(false) == Removed(world, q, old(Now(false)), userId, cohort)
    {
      var throws, takes := Call(FindYears);
      if throws {
        errors := errors + [UpdateFailed(userId, cohort)];
        return;
      }
      var year := world.YearOf(cohort);
      if year == None {
        errors := errors + [CohortNotFound(cohort)];
        return;
      }
      var seat := Seat(userId, cohort, year.value);
      throws, takes := Call(UpdateRows);
      var mapped := HasRow(rows, seat);
      if takes {
        rows := Reassigned(rows, seat);
      }
      if throws {
        errors := errors + [UpdateFailed(userId, cohort)];
      } else if !mapped {
        results := results + [NotMapped(cohort, userId)];
      } else {
        results := results + [StatusUpdated(cohort, userId)];
        affected := affected + {userId};
      }
    }

    method Add(q: Request, userId: string, cohort: string)
      modifies this
      ensures Now(false) == Added(world, q, old(Now(false)), userId, cohort)
    {
      var throws, takes := Call(FindYears);
      if throws {
        errors := errors + [SaveFailed(userId, cohort)];
        return;
      }
      var year := world.YearOf(cohort);
      if year == None {
        errors := errors + [CohortNotFound(cohort)];
        return;
      }
      var seat := Seat(userId, cohort, year.value);
      throws, takes := Call(FindMapping);
      if throws {
        errors := errors + [SaveFailed(userId, cohort)];
        return;
      }
      var j := FirstAt(rows, seat);
      var row := if j < |rows| then Merged(q, rows[j]) else Fresh(q, seat);
      throws, takes := Call(SaveRow);
      if takes {
        rows := if j < |rows| then rows[j := row] else rows + [row];
      }
      if throws {
        errors := errors + [SaveFailed(userId, cohort)];
      } else {
        results := results + [Saved(row)];
        affected := affected + {userId};
      }
    }

    method HandleUser(q: Request, userId: string) returns (thrown: bool)
      modifies this
      ensures Now(thrown) == Handled(world, q, old(Now(false)), userId)
    {
      var throws, _ := Call(FindUser);
      if throws {
        return true;
      }
      if userId !in world.known {
        errors := errors + [UserNotExist(userId)];
        return false;
      }
      ghost var start := Now(false);
      for i := 0 to |q.removes|
        invariant Now(false) == RemovedAll(world, q, start, userId, q.removes[..i])
      {
        assert q.removes[..i + 1][..i] == q.removes[..i];
        Remove(q, userId, q.removes[i]);
      }
      assert q.removes[..|q.removes|] == q.removes;
      ghost var mid := Now(false);
      for i := 0 to |q.adds|
        invariant Now(false) == AddedAll(world, q, mid, userId, q.adds[..i])
      {
        assert q.adds[..i + 1][..i] == q.adds[..i];
        Add(q, userId, q.adds[i]);
      }
      assert q.adds[..|q.adds|] == q.adds;
      return false;
    }

    /** Without an active academic year nothing is touched. */
    method CreateBulkCohortMembers(q: Request, activeYear: bool) returns (thrown: bool, bumped: set<string>)
      modifies this
      ensures var s := Begin(old(rows), old(clock));
        Now(thrown) == if activeYear then Run(world, q, s, q.users) else s
      ensures bumped == if activeYear && !thrown then Bumped(q, affected) else {}
    {
      affected, results, errors := {}, [], [];
      if !activeYear {
        return false, {};
      }
      ghost var s := Now(false);
      for i := 0 to |q.users|
        invariant Now(false) == Run(world, q, s, q.users[..i])
      {
        RunStep(world, q, s, q.users, i);
        thrown := HandleUser(q, q.users[i]);
        if thrown {
          ThrownStays(world, q, s, q.users, i + 1);
          return true, {};
        }
      }
      assert q.users[..|q.users|] == q.users;
      return false, Bumped(q, affected);
    }
  }

  // ---------------------------------------------------------------- whatever fails

  /** The request names the seat: a known user, and a cohort with a mapping for the year. */
  predicate Named(w: World, q: Request, seat: Seat) {
    && seat.userId in q.users && seat.userId in w.known
    && (seat.cohortId in q.removes || seat.cohortId in q.adds) && w.YearOf(seat.cohortId) == Some(seat.yearId)
  }

  predicate SameOwner(a: Member, b: Member) {
    a.seat == b.seat && a.createdBy == b.createdBy
  }

  /**
   Rows stay where they are and whose they are, nothing but the named seats changes, and no seat gets a
   second row.
   */
  ghost predicate Kept(w: World, q: Request, before: seq<Member>, after: seq<Member>) {
    && |before| <= |after|
    && (forall i :: 0 <= i < |before| ==> SameOwner(before[i], after[i]))
    && (forall i :: 0 <= i < |before| ==> after[i] != before[i] ==> Named(w, q, before[i].seat))
    && (forall i :: |before| <= i < |after| ==> Named(w, q, after[i].seat))
    && (UniqueRows(before) ==> UniqueRows(after))
  }

  lemma RemovedKeeps(w: World, q: Request, s: State, userId: string, cohort: string)
    requires userId in q.users && userId in w.known && cohort in q.removes
    ensures Kept(w, q, s.rows, Removed(w, q, s, userId, cohort).rows)
  {
    if w.YearOf(cohort) != None {
      ReassignedKeeps(w, q, s.rows, Seat(userId, cohort, w.YearOf(cohort).value));
    }
  }

  lemma ReassignedKeeps(w: World, q: Request, rows: seq<Member>, seat: Seat)
    requires Named(w, q, seat)
    ensures Kept(w, q, rows, Reassigned(rows, seat))
  {
  }

  lemma StoredKeeps(w: World, q: Request, rows: seq<Member>, seat: Seat)
    requires Named(w, q, seat)
    ensures Kept(w, q, rows, Stored(q, rows, seat))
  {
  }

  lemma AddedKeeps(w: World, q: Request, s: State, userId: string, cohort: string)
    requires userId in q.users && userId in w.known && cohort in q.adds
    ensures Kept(w, q, s.rows, Added(w, q, s, userId, cohort).rows)
  {
    if w.YearOf(cohort) != None {
      StoredKeeps(w, q, s.rows, Seat(userId, cohort, w.YearOf(cohort).value));
    }
  }

  lemma {:induction false} RemovesKeep(w: World, q: Request, s: State, userId: string, cohorts: seq<string>)
    requires userId in q.users && userId in w.known && (forall c :: c in cohorts ==> c in q.removes)
    ensures Kept(w, q, s.rows, RemovedAll(w, q, s, userId, cohorts).rows)
    decreases |cohorts|
  {
    if cohorts != [] {
      var n := |cohorts| - 1;
      var r := RemovedAll(w, q, s, userId, cohorts[..n]);
      RemovesKeep(w, q, s, userId, cohorts[..n]);
      RemovedKeeps(w, q, r, userId, cohorts[n]);
    }
  }

  lemma {:induction false} AddsKeep(w: World, q: Request, s: State, userId: string, cohorts: seq<string>)
    requires userId in q.users && userId in w.known && (forall c :: c in cohorts ==> c in q.adds)
    ensures Kept(w, q, s.rows, AddedAll(w, q, s, userId, cohorts).rows)
    decreases |cohorts|
  {
    if cohorts != [] {
      var n := |cohorts| - 1;
      var a := AddedAll(w, q, s, userId, cohorts[..n]);
      AddsKeep(w, q, s, userId, cohorts[..n]);
      AddedKeeps(w, q, a, userId, cohorts[n]);
    }
  }

  lemma HandledKeeps(w: World, q: Request, s: State, userId: string)
    requires userId in q.users
    ensures Kept(w, q, s.rows, Handled(w, q, s, userId).rows)
  {
    if !w.Throws(FindUser, s.clock) && userId in w.known {
      var r := RemovedAll(w, q, s.Tick(), userId, q.removes);
      RemovesKeep(w, q, s.Tick(), userId, q.removes);
      AddsKeep(w, q, r, userId, q.adds);
    }
  }

  /**
   However the calls end, also when one throws out of the loop: rows outside the named seats are
   untouched, no row changes hands, and one row per user, cohort and year stays one.
   */
  lemma {:induction false} RunKeeps(w: World, q: Request, s: State, users: seq<string>)
    requires forall u :: u in users ==> u in q.users
    ensures Kept(w, q, s.rows, Run(w, q, s, users).rows)
  {
    if users != [] {
      var n := |users| - 1;
      var r := Run(w, q, s, users[..n]);
      RunKeeps(w, q, s, users[..n]);
      if !r.thrown {
        HandledKeeps(w, q, r, users[n]);
      }
    }
  }

  /** Each step leaves one answer or one error, and only the search for a user throws. */
  lemma {:induction false} AllAnswered(w: World, q: Request, s: State, userId: string, cohorts: seq<string>)
    ensures var r := RemovedAll(w, q, s, userId, cohorts);
      |r.results| + |r.errors| == |s.results| + |s.errors| + |cohorts| && r.thrown == s.thrown
    ensures var a := AddedAll(w, q, s, userId, cohorts);
      |a.results| + |a.errors| == |s.results| + |s.errors| + |cohorts| && a.thrown == s.thrown
    decreases |cohorts|
  {
    if cohorts != [] {
      var n := |cohorts| - 1;
      AllAnswered(w, q, s, userId, cohorts[..n]);
      RemovedAnswered(w, q, RemovedAll(w, q, s, userId, cohorts[..n]), userId, cohorts[n]);
      AddedAnswered(w, q, AddedAll(w, q, s, userId, cohorts[..n]), userId, cohorts[n]);
    }
  }

  lemma RemovedAnswered(w: World, q: Request, s: State, userId: string, cohort: string)
    ensures var r := Removed(w, q, s, userId, cohort);
      |r.results| + |r.errors| == |s.results| + |s.errors| + 1 && r.thrown == s.thrown
  {
  }

  lemma AddedAnswered(w: World, q: Request, s: State, userId: string, cohort: string)
    ensures var r := Added(w, q, s, userId, cohort);
      |r.results| + |r.errors| == |s.results| + |s.errors| + 1 && r.thrown == s.thrown
  {
  }

  // ---------------------------------------------------------------- the final state when nothing fails

  ghost predicate Quiet(w: World) {
    forall op, t :: !w.Throws(op, t)
  }

  function Count(xs: seq<string>, x: string): nat {
    if xs == [] then 0 else Count(xs[..|xs| - 1], x) + if xs[|xs| - 1] == x then 1 else 0
  }

  lemma {:induction false} CountIs(xs: seq<string>, x: string)
    ensures Count(xs, x) == multiset(xs)[x] && (x in xs <==> Count(xs, x) > 0)
  {
    if xs != [] {
      CountIs(xs[..|xs| - 1], x);
      assert xs == xs[..|xs| - 1] + [xs[|xs| - 1]];
    }
  }

  function Taken(row: Option<Member>): Option<Member> {
    match row
    case Some(m) => Some(m.(status := REASSIGNED))
    case None => None
  }

  lemma ReassignedView(rows: seq<Member>, seat: Seat, k: Seat)
    ensures View(Reassigned(rows, seat), k) == if k == seat then Taken(View(rows, k)) else View(rows, k)
  {
  }

  lemma StoredView(q: Request, rows: seq<Member>, seat: Seat, k: Seat)
    ensures View(Stored(q, rows, seat), k) == if k == seat then Some(NewRow(q, View(rows, k), k)) else View(rows, k)
  {
    var stored, i, j := Stored(q, rows, seat), FirstAt(rows, k), FirstAt(rows, seat);
    if k == seat {
      FirstIs(stored, k, j);
    } else {
      FirstIs(stored, k, if i < |rows| then i else |stored|);
    }
  }

  lemma FirstIs(rows: seq<Member>, seat: Seat, j: nat)
    requires j <= |rows| && (forall i :: 0 <= i < j ==> rows[i].seat != seat) && (j < |rows| ==> rows[j].seat == seat)
    ensures FirstAt(rows, seat) == j
  {
  }

  /** The seat's cohort has this year, and the user is this one. */
  predicate Hits(w: World, userId: string, k: Seat) {
    k.userId == userId && w.YearOf(k.cohortId) == Some(k.yearId)
  }

  lemma {:induction false} RemovedAllView(w: World, q: Request, s: State, userId: string, cohorts: seq<string>, k: Seat)
    requires Quiet(w)
    ensures View(RemovedAll(w, q, s, userId, cohorts).rows, k)
         == if Hits(w, userId, k) && k.cohortId in cohorts then Taken(View(s.rows, k)) else View(s.rows, k)
    decreases |cohorts|
  {
    if cohorts != [] {
      var n := |cohorts| - 1;
      var c, r := cohorts[n], RemovedAll(w, q, s, userId, cohorts[..n]);
      RemovedAllView(w, q, s, userId, cohorts[..n], k);
      assert k.cohortId in cohorts <==> k.cohortId in cohorts[..n] || k.cohortId == c by {
        assert cohorts == cohorts[..n] + [c];
      }
      if w.YearOf(c) != None {
        ReassignedView(r.rows, Seat(userId, c, w.YearOf(c).value), k);
      }
    }
  }

  /** A seat's row after being given n times. */
  function Given(q: Request, k: Seat, row: Option<Member>, n: nat): Option<Member> {
    if n == 0 then row
    else match row
      case Some(m) => Some(Merged(q, m))
      case None => Some(if n == 1 then Fresh(q, k) else Merged(q, Fresh(q, k)))
  }

  lemma AddedView(w: World, q: Request, s: State, userId: string, cohort: string, k: Seat)
    requires Quiet(w)
    ensures View(Added(w, q, s, userId, cohort).rows, k)
         == if Hits(w, userId, k) && k.cohortId == cohort then Some(NewRow(q, View(s.rows, k), k)) else View(s.rows, k)
  {
    if w.YearOf(cohort) != None {
      StoredView(q, s.rows, Seat(userId, cohort, w.YearOf(cohort).value), k);
    }
  }

  lemma {:induction false} AddedAllView(w: World, q: Request, s: State, userId: string, cohorts: seq<string>, k: Seat)
    requires Quiet(w)
    ensures View(AddedAll(w, q, s, userId, cohorts).rows, k)
         == Given(q, k, View(s.rows, k), if Hits(w, userId, k) then Count(cohorts, k.cohortId) else 0)
    decreases |cohorts|
  {
    if cohorts != [] {
      var n := |cohorts| - 1;
      var c, a := cohorts[n], AddedAll(w, q, s, userId, cohorts[..n]);
      AddedAllView(w, q, s, userId, cohorts[..n], k);
      AddedView(w, q, a, userId, c, k);
    }
  }

  /**
   A seat's row after its user was handled n times, its cohort being taken away if `taken` and given
   `given` times.
   */
  function Final(q: Request, k: Seat, row: Option<Member>, n: nat, taken: bool, given: nat): Option<Member> {
    if n == 0 then row
    else if given == 0 then (if taken then Taken(row) else row)
    else match row
      case Some(_) => Given(q, k, if taken then Taken(row) else row, given)
      case None =>
        if n == 1 then Given(q, k, row, given)
        else Given(q, k, if taken then Taken(Some(Fresh(q, k))) else Some(Fresh(q, k)), given)
  }

  lemma OncePerUser(q: Request, k: Seat, row: Option<Member>, n: nat, taken: bool, given: nat)
    ensures var r := Final(q, k, row, n, taken, given);
      Given(q, k, if taken then Taken(r) else r, given) == Final(q, k, row, n + 1, taken, given)
  {
  }

  lemma HandledView(w: World, q: Request, s: State, userId: string, k: Seat)
    requires Quiet(w)
    ensures var v := View(s.rows, k);
      View(Handled(w, q, s, userId).rows, k)
      == if Hits(w, userId, k) && userId in w.known
         then Given(q, k, if k.cohortId in q.removes then Taken(v) else v, Count(q.adds, k.cohortId)) else v
  {
    if userId in w.known {
      var r := RemovedAll(w, q, s.Tick(), userId, q.removes);
      RemovedAllView(w, q, s.Tick(), userId, q.removes, k);
      AddedAllView(w, q, r, userId, q.adds, k);
    }
  }

  lemma {:induction false} QuietDoesNotThrow(w: World, q: Request, s: State, users: seq<string>)
    requires Quiet(w) && !s.thrown
    ensures !Run(w, q, s, users).thrown
  {
    if users != [] {
      var n := |users| - 1;
      var r := Run(w, q, s, users[..n]);
      QuietDoesNotThrow(w, q, s, users[..n]);
      AllAnswered(w, q, r.Tick(), users[n], q.removes);
      AllAnswered(w, q, RemovedAll(w, q, r.Tick(), users[n], q.removes), users[n], q.adds);
    }
  }

  /** What the request makes of a seat, for any tenant. */
  lemma {:induction false} RunView(w: World, q: Request, s: State, users: seq<string>, k: Seat)
    requires Quiet(w) && !s.thrown
    ensures View(Run(w, q, s, users).rows, k)
         == if k.userId in w.known && w.YearOf(k.cohortId) == Some(k.yearId)
            then Final(q, k, View(s.rows, k), Count(users, k.userId), k.cohortId in q.removes,
              Count(q.adds, k.cohortId))
            else View(s.rows, k)
  {
    if users != [] {
      var n := |users| - 1;
      RunView(w, q, s, users[..n], k);
      QuietDoesNotThrow(w, q, s, users[..n]);
      HandledView(w, q, Run(w, q, s, users[..n]), users[n], k);
      OncePerUser(q, k, View(s.rows, k), Count(users[..n], k.userId), k.cohortId in q.removes,
        Count(q.adds, k.cohortId));
    }
  }

  /**
   The status of a seat that is added. For the special tenant it is the requested one; if none is requested,
   a row keeps its status, unless the cohort is also taken away while the row is there. For all others it is
   ACTIVE, and the requested status counts only for a new row that the request names once.
   */
  predicate StatusAsked(q: Request, k: Seat, before: Option<Member>, status: MemberStatus) {
    var times := multiset(q.users)[k.userId];
    if q.tenant != SpecialTenant then
      status == if before == None && times == 1 && multiset(q.adds)[k.cohortId] == 1 && q.status.Some?
                then q.status.value else ACTIVE
    else if q.status.Some? then status == q.status.value
    else if k.cohortId in q.removes && (before.Some? || times > 1) then status == REASSIGNED
    else status == if before.Some? then before.value.status else ACTIVE
  }

  /**
   What the request promises for a seat, given its rows before and after. A named seat in the cohorts
   to add holds a row with the status asked for. A named seat that is only taken away ends REASSIGNED if it
   had a row. Every other seat keeps its row.
   */
  predicate EndsAsAsked(w: World, q: Request, k: Seat, before: Option<Member>, end: Option<Member>) {
    && (!Named(w, q, k) ==> end == before)
    && (Named(w, q, k) && k.cohortId !in q.adds ==>
          && (before == None ==> end == None)
          && (before.Some? ==> end == Some(
                Member(k, REASSIGNED, before.value.role, before.value.createdBy, before.value.updatedBy))))
    && (Named(w, q, k) && k.cohortId in q.adds ==>
          && end.Some? && end.value.seat == k && end.value.updatedBy == q.login
          && end.value.createdBy == (if before.Some? then before.value.createdBy else q.login)
          && end.value.role == (if q.role.Some? || before == None then q.role else before.value.role)
          && StatusAsked(q, k, before, end.value.status))
  }

  /** When no call fails every seat ends as asked, for any tenant, in at most one row. */
  lemma FinalState(w: World, q: Request, rows: seq<Member>, clock: nat, k: Seat)
    requires Quiet(w)
    ensures var after := Run(w, q, Begin(rows, clock), q.users).rows;
      EndsAsAsked(w, q, k, View(rows, k), View(after, k)) && (UniqueRows(rows) ==> UniqueRows(after))
  {
    RunKeeps(w, q, Begin(rows, clock), q.users);
    RunView(w, q, Begin(rows, clock), q.users, k);
    CountIs(q.users, k.userId);
    CountIs(q.adds, k.cohortId);
    if Named(w, q, k) {
      FinalIsAsked(w, q, k, View(rows, k));
    }
  }

  lemma FinalIsAsked(w: World, q: Request, k: Seat, before: Option<Member>)
    requires Named(w, q, k) && (before.Some? ==> before.value.seat == k)
    requires Count(q.users, k.userId) == multiset(q.users)[k.userId] > 0
    requires Count(q.adds, k.cohortId) == multiset(q.adds)[k.cohortId]
    ensures EndsAsAsked(w, q, k, before, Final(q, k, before, Count(q.users, k.userId), k.cohortId in q.removes,
                                               Count(q.adds, k.cohortId)))
  {
    assert k.cohortId in q.adds <==> k.cohortId in multiset(q.adds);
  }

  // ---------------------------------------------------------------- when no failure is reported

  function Calm(w: World): World {
    w.(faults := (op: Op, t: nat) => Fine)
  }

  /** The response lists no step that failed; unknown users and cohorts are no failures. */
  predicate NoneFailed(errors: seq<Failure>) {
    forall f :: f in errors ==> !f.UpdateFailed? && !f.SaveFailed?
  }

  /** Errors are only added, and with no failure among them everything is as if no call had failed. */
  predicate CalmIfSilent(s: State, r: State, calm: State) {
    s.errors <= r.errors && (NoneFailed(r.errors) && !r.thrown ==> r == calm)
  }

  lemma RemovedCalm(w: World, q: Request, s: State, userId: string, cohort: string)
    ensures CalmIfSilent(s, Removed(w, q, s, userId, cohort), Removed(Calm(w), q, s, userId, cohort))
  {
    assert Calm(w).YearOf(cohort) == w.YearOf(cohort);
    LastFails(s.errors, UpdateFailed(userId, cohort));
  }

  lemma AddedCalm(w: World, q: Request, s: State, userId: string, cohort: string)
    ensures CalmIfSilent(s, Added(w, q, s, userId, cohort), Added(Calm(w), q, s, userId, cohort))
  {
    assert Calm(w).YearOf(cohort) == w.YearOf(cohort);
    LastFails(s.errors, SaveFailed(userId, cohort));
  }

  lemma LastFails(errors: seq<Failure>, f: Failure)
    requires f.UpdateFailed? || f.SaveFailed?
    ensures !NoneFailed(errors + [f])
  {
    assert f in errors + [f];
  }

  lemma {:induction false} AllCalm(w: World, q: Request, s: State, userId: string, cohorts: seq<string>)
    ensures CalmIfSilent(s, RemovedAll(w, q, s, userId, cohorts), RemovedAll(Calm(w), q, s, userId, cohorts))
    ensures CalmIfSilent(s, AddedAll(w, q, s, userId, cohorts), AddedAll(Calm(w), q, s, userId, cohorts))
    decreases |cohorts|
  {
    if cohorts != [] {
      var n := |cohorts| - 1;
      var r, a := RemovedAll(w, q, s, userId, cohorts[..n]), AddedAll(w, q, s, userId, cohorts[..n]);
      AllCalm(w, q, s, userId, cohorts[..n]);
      RemovedCalm(w, q, r, userId, cohorts[n]);
      AddedCalm(w, q, a, userId, cohorts[n]);
      AllAnswered(w, q, s, userId, cohorts[..n]);
      RemovedAnswered(w, q, r, userId, cohorts[n]);
      AddedAnswered(w, q, a, userId, cohorts[n]);
      CalmThen(s, r, RemovedAll(Calm(w), q, s, userId, cohorts[..n]), RemovedAll(w, q, s, userId, cohorts));
      CalmThen(s, a, AddedAll(Calm(w), q, s, userId, cohorts[..n]), AddedAll(w, q, s, userId, cohorts));
    }
  }

  lemma CalmThen(s: State, mid: State, calm: State, r: State)
    requires CalmIfSilent(s, mid, calm) && mid.errors <= r.errors && (mid.thrown ==> r.thrown)
    ensures s.errors <= r.errors && (NoneFailed(r.errors) && !r.thrown ==> mid == calm)
  {
  }

  lemma HandledCalm(w: World, q: Request, s: State, userId: string)
    requires !s.thrown
    ensures CalmIfSilent(s, Handled(w, q, s, userId), Handled(Calm(w), q, s, userId))
  {
    if !w.Throws(FindUser, s.clock) && userId in w.known {
      var t := RemovedAll(w, q, s.Tick(), userId, q.removes);
      var r := AddedAll(w, q, t, userId, q.adds);
      AllCalm(w, q, s.Tick(), userId, q.removes);
      AllCalm(w, q, t, userId, q.adds);
      AllAnswered(w, q, s.Tick(), userId, q.removes);
      AllAnswered(w, q, t, userId, q.adds);
      CalmThen(s.Tick(), t, RemovedAll(Calm(w), q, s.Tick(), userId, q.removes), r);
    }
  }

  lemma {:induction false} RunCalm(w: World, q: Request, s: State, users: seq<string>)
    requires !s.thrown
    ensures CalmIfSilent(s, Run(w, q, s, users), Run(Calm(w), q, s, users))
  {
    if users != [] {
      var n := |users| - 1;
      var mid := Run(w, q, s, users[..n]);
      RunCalm(w, q, s, users[..n]);
      if !mid.thrown {
        HandledCalm(w, q, mid, users[n]);
        CalmThen(s, mid, Run(Calm(w), q, s, users[..n]), Run(w, q, s, users));
      }
    }
  }

  /** A response without a failed step means that every seat ended as asked. */
  lemma SilentResponseIsFinal(w: World, q: Request, rows: seq<Member>, clock: nat, k: Seat)
    requires var r := Run(w, q, Begin(rows, clock), q.users); !r.thrown && NoneFailed(r.errors)
    ensures EndsAsAsked(w, q, k, View(rows, k), View(Run(w, q, Begin(rows, clock), q.users).rows, k))
  {
    RunCalm(w, q, Begin(rows, clock), q.users);
    FinalState(Calm(w), q, rows, clock, k);
    assert Calm(w).YearOf(k.cohortId) == w.YearOf(k.cohortId);
  }
}
