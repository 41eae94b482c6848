/**
 The nightly job that places students into batches of a hundred: for each user the first batch with
 room, over the cohorts of the user's district in order and their matching batches by name. Every
 call to the database may fail, before or after it took effect, and a failure is caught.
 */
module BatchAllocator {
  import opened JsValues
  import opened CohortMember

  const Capacity := 100

  /** A batch and the block its metadata names, if it names one. */
  datatype Batch = Batch(cohortId: string, block: Option<string>)

  /** A user with the values of the three custom fields the job looks at. */
  datatype User = User(userId: string, mode: Option<string>, district: Option<string>, block: Option<string>)

  datatype Op = FindCohorts | FindBatches | FindYear | CountMembers | FindMember | SaveMember | UpdateTenant

  /** What the job reads and does not change, and how each of its calls ends. */
  datatype World = World(
    cohortsIn: map<string, seq<string>>,
    batchesOf: map<string, seq<Batch>>,
    yearOf: map<string, string>,
    faults: (Op, nat) -> Fault)
  {
    predicate Throws(op: Op, at: nat) { faults(op, at) != Fine }

    predicate Takes(op: Op, at: nat) { faults(op, at) != Refused }

    function Cohorts(district: string): seq<string> {
      if district in cohortsIn then cohortsIn[district] else []
    }

    function Matching(cohort: string, block: string): seq<Batch> {
      if cohort in batchesOf then InBlock(batchesOf[cohort], block) else []
    }
  }

  function InBlock(batches: seq<Batch>, block: string): seq<Batch> {
    if batches == [] then []
    else (if batches[0].block == Some(block) then [batches[0]] else []) + InBlock(batches[1..], block)
  }

  datatype Failure = InBatch(userId: string, cohortId: string) | InUser(userId: string)

  /** The rows and counters the job changes; `clock` numbers its calls to the database. */
  datatype State = State(
    members: seq<Member>, activated: set<string>, clock: nat,
    placed: nat, skipped: nat, errors: seq<Failure>)
  {
    function Tick(): State { this.(clock := clock + 1) }

    function Fail(f: Failure): State { this.(errors := errors + [f]) }
  }

  /** Each run starts its counts anew. */
  function Begin(members: seq<Member>, activated: set<string>, clock: nat): State {
    State(members, activated, clock, 0, 0, [])
  }

  // ---------------------------------------------------------------- rows

  function Row(u: User, b: Batch, year: string): Member {
    Member(Seat(u.userId, b.cohortId, year), ACTIVE, None, u.userId, u.userId)
  }

  function CountActive(members: seq<Member>, cohortId: string, yearId: string): nat {
    if members == [] then 0 else
      var last := members[|members| - 1];
      CountActive(members[..|members| - 1], cohortId, yearId)
      + Adds(last, cohortId, yearId)
  }

  function Adds(m: Member, cohortId: string, yearId: string): nat {
    if m.seat.cohortId == cohortId && m.seat.yearId == yearId && m.status == ACTIVE then 1 else 0
  }

  function RowsOf(members: seq<Member>, userId: string): nat {
    if members == [] then 0 else
      RowsOf(members[..|members| - 1], userId) + if members[|members| - 1].seat.userId == userId then 1 else 0
  }

  // ---------------------------------------------------------------- what the job does

  datatype End = Next | Placed | Already | Threw

  datatype Result = Result(state: State, end: End)

  /** One batch, with its failures caught. */
  function Tried(w: World, s: State, u: User, b: Batch): Result {
    var caught := InBatch(u.userId, b.cohortId);
    var s1 := s.Tick();
    if w.Throws(FindYear, s.clock) then Result(s1.Fail(caught), Next)
    else if b.cohortId !in w.yearOf then Result(s1, Next)
    else
      var year, s2 := w.yearOf[b.cohortId], s1.Tick();
      if w.Throws(CountMembers, s1.clock) then Result(s2.Fail(caught), Next)
      else if CountActive(s.members, b.cohortId, year) >= Capacity then Result(s2, Next)
      else
        var s3 := s2.Tick();
        if w.Throws(FindMember, s2.clock) then Result(s3.Fail(caught), Next)
        else if HasRow(s.members, Seat(u.userId, b.cohortId, year)) then Result(s3, Already)
        else Saved(w, s3, u, Row(u, b, year), caught)
  }

  function Saved(w: World, s: State, u: User, row: Member, caught: Failure): Result {
    var s1 := s.Tick().(members := if w.Takes(SaveMember, s.clock) then s.members + [row] else s.members);
    if w.Throws(SaveMember, s.clock) then Result(s1.Fail(caught), Next)
    else
      var s2 := s1.Tick().(activated :=
        if w.Takes(UpdateTenant, s1.clock) then s.activated + {u.userId} else s.activated);
      if w.Throws(UpdateTenant, s1.clock) then Result(s2.Fail(caught), Next)
      else Result(s2.(placed := s2.placed + 1), Placed)
  }

  /** The matching batches of one cohort, until one takes the user. */
  function Filled(w: World, s: State, u: User, batches: seq<Batch>): Result
    decreases |batches|
  {
    if batches == [] then Result(s, Next)
    else
      var r := Tried(w, s, u, batches[0]);
      if r.end != Next then r else Filled(w, r.state, u, batches[1..])
  }

  /** The cohorts of the district, until one takes the user; a failed search for batches ends it. */
  function Visited(w: World, s: State, u: User, block: string, cohorts: seq<string>): Result
    decreases |cohorts|
  {
    if cohorts == [] then Result(s, Next)
    else if w.Throws(FindBatches, s.clock) then Result(s.Tick(), Threw)
    else
      var r := Filled(w, s.Tick(), u, w.Matching(cohorts[0], block));
      if r.end != Next then r else Visited(w, r.state, u, block, cohorts[1..])
  }

  function Skip(s: State): State { s.(skipped := s.skipped + 1) }

  /** One user: the checks, then the cohorts. */
  function Handled(w: World, s: State, u: User): Result {
    if u.mode != Some("remote") || u.district == None then Result(Skip(s), Next)
    else if w.Throws(FindCohorts, s.clock) then Result(Skip(s.Tick()).Fail(InUser(u.userId)), Threw)
    else
      var cohorts := w.Cohorts(u.district.value);
      if cohorts == [] || u.block == None then Result(Skip(s.Tick()), Next)
      else
        var r := Visited(w, s.Tick(), u, u.block.value, cohorts);
        match r.end
        case Next => Result(Skip(r.state), Next)
        case Threw => Result(Skip(r.state).Fail(InUser(u.userId)), Threw)
        case _ => r
  }

  /** The whole run. */
  function Run(w: World, s: State, users: seq<User>): State {
    if users == [] then s
    else Handled(w, Run(w, s, users[..|users| - 1]), users[|users| - 1]).state
  }

  /** How the run ends for the i-th user. */
  function EndOf(w: World, s: State, users: seq<User>, i: nat): End
    requires i < |users|
  {
    Handled(w, Run(w, s, users[..i]), users[i]).end
  }

  lemma RunStep(w: World, s: State, users: seq<User>, i: nat)
    requires i < |users|
    ensures Run(w, s, users[..i + 1]) == Handled(w, Run(w, s, users[..i]), users[i]).state
  {
    assert users[..i + 1][..i] == users[..i];
  }

  // ---------------------------------------------------------------- the job

  class CronService {
    const world: World
    var members: seq<Member>
    var activated: set<string>
    var clock: nat
    var assignedCount: nat
    var skippedCount: nat
    var errors: seq<Failure>

    constructor (world: World, members: seq<Member>)
      ensures this.world == world && Now() == State(members, {}, 0, 0, 0, [])
    {
      this.world, this.members, this.activated, this.clock := world, members, {}, 0;
      this.assignedCount, this.skippedCount, this.errors := 0, 0, [];
    }

    function Now(): State
      reads this
    {
      State(members, activated, clock, assignedCount, skippedCount, errors)
    }

    /** One call to the database: whether it throws and whether it takes effect. */
    method Call(op: Op) returns (throws: bool, takes: bool)
      modifies `clock
      ensures Now() == old(Now()).Tick()
      ensures throws == world.Throws(op, old(clock)) && takes == world.Takes(op, old(clock))
    {
      throws, takes := world.Throws(op, clock), world.Takes(op, clock);
      clock := clock + 1;
    }

    method TryBatch(u: User, b: Batch) returns (end: End)
      modifies this
      ensures Result(Now(), end) == Tried(world, old(Now()), u, b)
    {
      end := Next;
      var throws, takes := Call(FindYear);
      if throws {
        errors := errors + [InBatch(u.userId, b.cohortId)];
        return;
      }
      if b.cohortId !in world.yearOf {
        return;
      }
      var year := world.yearOf[b.cohortId];
      throws, takes := Call(CountMembers);
      if throws {
        errors := errors + [InBatch(u.userId, b.cohortId)];
        return;
      }
      if CountActive(members, b.cohortId, year) < Capacity {
        throws, takes := Call(FindMember);
        if throws {
          errors := errors + [InBatch(u.userId, b.cohortId)];
        } else if HasRow(members, Seat(u.userId, b.cohortId, year)) {
          end := Already;
        } else {
          end := SaveRow(u, Row(u, b, year));
        }
      }
    }

    method SaveRow(u: User, row: Member) returns (end: End)
      modifies this
      ensures Result(Now(), end)
           == Saved(world, old(Now()), u, row, InBatch(u.userId, row.seat.cohortId))
    {
      end := Next;
      var throws, takes := Call(SaveMember);
      if takes {
        members := members + [row];
      }
      if throws {
        errors := errors + [InBatch(u.userId, row.seat.cohortId)];
        return;
      }
      throws, takes := Call(UpdateTenant);
      if takes {
        activated := activated + {u.userId};
      }
      if throws {
        errors := errors + [InBatch(u.userId, row.seat.cohortId)];
        return;
      }
      assignedCount := assignedCount + 1;
      end := Placed;
    }

    method Fill(u: User, batches: seq<Batch>) returns (end: End)
      modifies this
      ensures Result(Now(), end) == Filled(world, old(Now()), u, batches)
    {
      end := Next;
      var i := 0;
      while i < |batches| && end == Next
        invariant 0 <= i <= |batches|
        invariant Filled(world, old(Now()), u, batches)
               == if end == Next then Filled(world, Now(), u, batches[i..]) else Result(Now(), end)
      {
        assert batches[i..][1..] == batches[i + 1..];
        end := TryBatch(u, batches[i]);
        i := i + 1;
      }
    }

    method Visit(u: User, block: string, cohorts: seq<string>) returns (end: End)
      modifies this
      ensures Result(Now(), end) == Visited(world, old(Now()), u, block, cohorts)
    {
      end := Next;
      var i := 0;
      while i < |cohorts| && end == Next
        invariant 0 <= i <= |cohorts|
        invariant Visited(world, old(Now()), u, block, cohorts)
               == if end == Next then Visited(world, Now(), u, block, cohorts[i..]) else Result(Now(), end)
      {
        assert cohorts[i..][1..] == cohorts[i + 1..];
        var throws, _ := Call(FindBatches);
        if throws {
          end := Threw;
        } else {
          end := Fill(u, world.Matching(cohorts[i], block));
        }
        i := i + 1;
      }
    }

    method Handle(u: User) returns (end: End)
      modifies this
      ensures Result(Now(), end) == Handled(world, old(Now()), u)
    {
      end := Next;
      if u.mode == Some("remote") && u.district != None {
        var throws, _ := Call(FindCohorts);
        if throws {
          end := Threw;
        } else if world.Cohorts(u.district.value) != [] && u.block != None {
          end := Visit(u, u.block.value, world.Cohorts(u.district.value));
        }
      }
      if end == Next || end == Threw {
        skippedCount := skippedCount + 1;
      }
      if end == Threw {
        errors := errors + [InUser(u.userId)];
      }
    }

    method AssignStudentsToBatches(users: seq<User>)
      modifies this
      ensures Now() == Run(world, Begin(old(members), old(activated), old(clock)), users)
    {
      assignedCount, skippedCount, errors := 0, 0, [];
      ghost var s := Now();
      for i := 0 to |users|
        invariant Now() == Run(world, s, users[..i])
      {
        RunStep(world, s, users, i);
        var _ := Handle(users[i]);
      }
      assert users[..|users|] == users;
    }
  }

  // ---------------------------------------------------------------- the batches a user may go to

  /** The matching batches of the cohorts, in the order the nested loops meet them. */
  function Flat(w: World, block: string, cohorts: seq<string>): seq<Batch> {
    if cohorts == [] then [] else w.Matching(cohorts[0], block) + Flat(w, block, cohorts[1..])
  }

  function Candidates(w: World, u: User): seq<Batch> {
    if u.mode != Some("remote") || u.district == None || u.block == None then []
    else Flat(w, u.block.value, w.Cohorts(u.district.value))
  }

  predicate Full(w: World, members: seq<Member>, b: Batch) {
    b.cohortId in w.yearOf ==> CountActive(members, b.cohortId, w.yearOf[b.cohortId]) >= Capacity
  }

  predicate IsRowFor(w: World, u: User, batches: seq<Batch>, m: Member) {
    exists b :: b in batches && b.cohortId in w.yearOf && m == Row(u, b, w.yearOf[b.cohortId])
  }

  predicate IsMember(w: World, members: seq<Member>, u: User, b: Batch) {
    b.cohortId in w.yearOf && HasRow(members, Seat(u.userId, b.cohortId, w.yearOf[b.cohortId]))
  }

  // ---------------------------------------------------------------- whatever fails

  function Max(a: int, b: int): int { if a < b then b else a }

  /** Rows are only added, no batch goes above the capacity, and no member gets a second row in a batch. */
  ghost predicate Kept(before: seq<Member>, after: seq<Member>) {
    && before <= after
    && (forall c, y {:trigger CountActive(after, c, y)} ::
          CountActive(before, c, y) <= CountActive(after, c, y) <= Max(Capacity, CountActive(before, c, y)))
    && (UniqueRows(before) ==> UniqueRows(after))
  }

  /** Every added row is the user's, in one of the batches. */
  ghost predicate AddedFor(w: World, u: User, batches: seq<Batch>, before: seq<Member>, after: seq<Member>) {
    before <= after && forall i :: |before| <= i < |after| ==> IsRowFor(w, u, batches, after[i])
  }

  /** What holds after trying some batches, however the calls ended. */
  ghost predicate Tidy(w: World, s: State, u: User, batches: seq<Batch>, r: Result) {
    && Kept(s.members, r.state.members)
    && AddedFor(w, u, batches, s.members, r.state.members)
    && r.state.placed == s.placed + (if r.end == Placed then 1 else 0)
    && r.state.skipped == s.skipped
    && s.activated <= r.state.activated
    && (r.end == Placed ==>
          u.userId in r.state.activated && exists b :: b in batches && Got(w, u, b, s.members, r.state.members))
    && (r.end == Already ==> exists b :: b in batches && IsMember(w, r.state.members, u, b))
  }

  predicate Got(w: World, u: User, b: Batch, before: seq<Member>, after: seq<Member>) {
    && b.cohortId in w.yearOf
    && exists i :: |before| <= i < |after| && after[i] == Row(u, b, w.yearOf[b.cohortId])
  }

  lemma KeptByOneMore(members: seq<Member>, m: Member)
    requires CountActive(members, m.seat.cohortId, m.seat.yearId) < Capacity && !HasRow(members, m.seat)
    ensures Kept(members, members + [m])
  {
  }

  lemma OneRowMore(w: World, u: User, b: Batch, members: seq<Member>)
    requires b.cohortId in w.yearOf
    requires CountActive(members, b.cohortId, w.yearOf[b.cohortId]) < Capacity && !IsMember(w, members, u, b)
    ensures var after := members + [Row(u, b, w.yearOf[b.cohortId])];
      Kept(members, after) && AddedFor(w, u, [b], members, after) && Got(w, u, b, members, after)
  {
    var m := Row(u, b, w.yearOf[b.cohortId]);
    KeptByOneMore(members, m);
    assert b in [b] && (members + [m])[|members|] == m;
    assert IsRowFor(w, u, [b], m);
  }

  lemma NoRowMore(w: World, u: User, batches: seq<Batch>, members: seq<Member>)
    ensures Kept(members, members) && AddedFor(w, u, batches, members, members)
  {
  }

  predicate CanTake(w: World, members: seq<Member>, u: User, b: Batch) {
    && b.cohortId in w.yearOf
    && CountActive(members, b.cohortId, w.yearOf[b.cohortId]) < Capacity && !IsMember(w, members, u, b)
  }

  lemma TriedTidy(w: World, s: State, u: User, b: Batch)
    ensures Tidy(w, s, u, [b], Tried(w, s, u, b))
  {
    assert b in [b];
    if Tried(w, s, u, b).state.members == s.members {
      NoRowMore(w, u, [b], s.members);
    } else {
      OneRowMore(w, u, b, s.members);
    }
  }

  /** Going on with more batches keeps what holds so far. */
  lemma TidyThen(w: World, s: State, u: User, first: seq<Batch>, mid: Result, rest: seq<Batch>, r: Result)
    requires Tidy(w, s, u, first, mid) && mid.end == Next && Tidy(w, mid.state, u, rest, r)
    ensures Tidy(w, s, u, first + rest, r)
  {
  }

  /** Not going on leaves it as it is. */
  lemma TidyWider(w: World, s: State, u: User, first: seq<Batch>, rest: seq<Batch>, r: Result)
    requires Tidy(w, s, u, first, r)
    ensures Tidy(w, s, u, first + rest, r)
  {
  }

  lemma {:induction false} FilledTidy(w: World, s: State, u: User, batches: seq<Batch>)
    ensures Tidy(w, s, u, batches, Filled(w, s, u, batches))
    ensures Filled(w, s, u, batches).end != Threw
    decreases |batches|
  {
    if batches != [] {
      var r := Tried(w, s, u, batches[0]);
      TriedTidy(w, s, u, batches[0]);
      assert batches == [batches[0]] + batches[1..];
      if r.end == Next {
        FilledTidy(w, r.state, u, batches[1..]);
        TidyThen(w, s, u, [batches[0]], r, batches[1..], Filled(w, r.state, u, batches[1..]));
      } else {
        TidyWider(w, s, u, [batches[0]], batches[1..], r);
      }
    }
  }

  lemma {:induction false} VisitedTidy(w: World, s: State, u: User, block: string, cohorts: seq<string>)
    ensures Tidy(w, s, u, Flat(w, block, cohorts), Visited(w, s, u, block, cohorts))
    decreases |cohorts|
  {
    if cohorts != [] && !w.Throws(FindBatches, s.clock) {
      var batches := w.Matching(cohorts[0], block);
      var r := Filled(w, s.Tick(), u, batches);
      FilledTidy(w, s.Tick(), u, batches);
      if r.end == Next {
        VisitedTidy(w, r.state, u, block, cohorts[1..]);
        TidyThen(w, s.Tick(), u, batches, r, Flat(w, block, cohorts[1..]), Visited(w, r.state, u, block, cohorts[1..]));
      } else {
        TidyWider(w, s.Tick(), u, batches, Flat(w, block, cohorts[1..]), r);
      }
    }
  }

  /**
   What one user changes, however the calls end: the user is counted once, as placed or as skipped,
   unless a member already.
   */
  lemma HandledTidy(w: World, s: State, u: User)
    ensures var r := Handled(w, s, u);
      && Tidy(w, s, u, Candidates(w, u), r.(state := r.state.(skipped := s.skipped)))
      && r.state.skipped == s.skipped + if r.end == Next || r.end == Threw then 1 else 0
  {
    if u.mode == Some("remote") && u.district != None && u.block != None {
      VisitedTidy(w, s.Tick(), u, u.block.value, w.Cohorts(u.district.value));
    }
  }

  lemma HandledKeeps(w: World, s: State, u: User)
    ensures var r := Handled(w, s, u).state; Kept(s.members, r.members) && s.activated <= r.activated
  {
    HandledTidy(w, s, u);
  }

  lemma {:induction false} RunKeeps(w: World, s: State, users: seq<User>)
    ensures Kept(s.members, Run(w, s, users).members)
  {
    if users != [] {
      var n := |users| - 1;
      RunKeeps(w, s, users[..n]);
      HandledKeeps(w, Run(w, s, users[..n]), users[n]);
    }
  }

  function AlreadyCount(w: World, s: State, users: seq<User>, n: nat): nat
    requires n <= |users|
  {
    if n == 0 then 0 else AlreadyCount(w, s, users, n - 1) + if EndOf(w, s, users, n - 1) == Already then 1 else 0
  }

  /** However the calls end, every user is counted once: assigned, skipped, or found to be a member already. */
  lemma {:induction false} EveryUserIsCounted(w: World, s: State, users: seq<User>, n: nat)
    requires n <= |users|
    ensures var r := Run(w, s, users[..n]);
      n == (r.placed - s.placed) + (r.skipped - s.skipped) + AlreadyCount(w, s, users, n)
  {
    if n > 0 {
      EveryUserIsCounted(w, s, users, n - 1);
      RunStep(w, s, users, n - 1);
      HandledTidy(w, Run(w, s, users[..n - 1]), users[n - 1]);
    }
  }

  lemma KeptThen(first: seq<Member>, before: seq<Member>, after: seq<Member>)
    requires Kept(first, before) && Kept(before, after)
    ensures Kept(first, after)
  {
  }

  lemma {:induction false} RunGrows(w: World, s: State, users: seq<User>, i: nat, n: nat)
    requires i <= n <= |users|
    ensures Kept(Run(w, s, users[..i]).members, Run(w, s, users[..n]).members)
    ensures Run(w, s, users[..i]).activated <= Run(w, s, users[..n]).activated
  {
    if i < n {
      var before := Run(w, s, users[..n - 1]);
      RunGrows(w, s, users, i, n - 1);
      RunStep(w, s, users, n - 1);
      HandledKeeps(w, before, users[n - 1]);
      KeptThen(Run(w, s, users[..i]).members, before.members, Run(w, s, users[..n]).members);
    }
  }

  lemma HasRowGrows(before: seq<Member>, after: seq<Member>, seat: Seat)
    requires before <= after && HasRow(before, seat)
    ensures HasRow(after, seat)
  {
  }

  /**
   However the calls end, what a user was counted as is so when the run is over: an assigned user has
   a new row in a matching batch and an active mapping, and one counted as a member already has a row.
   */
  lemma CountedHolds(w: World, s: State, users: seq<User>, i: nat)
    requires i < |users|
    ensures var r := Run(w, s, users); var u := users[i];
      && (EndOf(w, s, users, i) == Placed ==>
            u.userId in r.activated && exists b :: b in Candidates(w, u) && Got(w, u, b, s.members, r.members))
      && (EndOf(w, s, users, i) == Already ==> exists b :: b in Candidates(w, u) && IsMember(w, r.members, u, b))
  {
    var before, u := Run(w, s, users[..i]), users[i];
    var after, final := Run(w, s, users[..i + 1]), Run(w, s, users);
    assert users[..|users|] == users;
    RunKeeps(w, s, users[..i]);
    RunStep(w, s, users, i);
    RunGrows(w, s, users, i + 1, |users|);
    HandledTidy(w, before, u);
    if EndOf(w, s, users, i) == Placed {
      var b :| b in Candidates(w, u) && Got(w, u, b, before.members, after.members);
      GotGrows(w, u, b, s.members, before.members, after.members, final.members);
    }
    if EndOf(w, s, users, i) == Already {
      var b :| b in Candidates(w, u) && IsMember(w, after.members, u, b);
      HasRowGrows(after.members, final.members, Seat(u.userId, b.cohortId, w.yearOf[b.cohortId]));
    }
  }

  lemma GotGrows(w: World, u: User, b: Batch, first: seq<Member>, before: seq<Member>, after: seq<Member>,
                 last: seq<Member>)
    requires first <= before <= after <= last && Got(w, u, b, before, after)
    ensures Got(w, u, b, first, last)
  {
  }

  predicate RowOfSome(w: World, users: seq<User>, m: Member) {
    exists u :: u in users && IsRowFor(w, u, Candidates(w, u), m)
  }

  /**
   However the calls end, every row the run adds puts a listed user into one of the user's candidates.
   */
  lemma {:induction false} OnlyCandidates(w: World, s: State, users: seq<User>, n: nat)
    requires n <= |users|
    ensures var after := Run(w, s, users[..n]).members;
      s.members <= after && forall i :: |s.members| <= i < |after| ==> RowOfSome(w, users, after[i])
  {
    if n > 0 {
      var before, u := Run(w, s, users[..n - 1]), users[n - 1];
      var after := Handled(w, before, u).state.members;
      OnlyCandidates(w, s, users, n - 1);
      RunStep(w, s, users, n - 1);
      AddedByOne(w, before, u);
      forall i | |s.members| <= i < |after| ensures RowOfSome(w, users, after[i]) {
        if i >= |before.members| {
          assert u in users && IsRowFor(w, u, Candidates(w, u), after[i]);
        } else {
          assert after[i] == before.members[i];
        }
      }
    }
  }

  lemma AddedByOne(w: World, s: State, u: User)
    ensures AddedFor(w, u, Candidates(w, u), s.members, Handled(w, s, u).state.members)
  {
    HandledTidy(w, s, u);
  }

  // ---------------------------------------------------------------- when nothing fails

  ghost predicate Quiet(w: World) {
    forall op, t :: !w.Throws(op, t)
  }

  /** The first batch with a year mapping and room. */
  function FirstOpen(w: World, members: seq<Member>, batches: seq<Batch>): (j: nat)
    ensures j <= |batches|
    ensures forall k :: 0 <= k < j ==> Full(w, members, batches[k])
    ensures j < |batches| ==> !Full(w, members, batches[j])
  {
    if batches == [] || !Full(w, members, batches[0]) then 0 else 1 + FirstOpen(w, members, batches[1..])
  }

  /** The user goes to the first batch with room, unless a member there already. */
  predicate FirstFit(w: World, s: State, u: User, batches: seq<Batch>, r: Result) {
    var j := FirstOpen(w, s.members, batches);
    if j == |batches| then r.end == Next && r.state == s.(clock := r.state.clock)
    else
      var b := batches[j];
      var year := w.yearOf[b.cohortId];
      if HasRow(s.members, Seat(u.userId, b.cohortId, year)) then
        r.end == Already && r.state == s.(clock := r.state.clock)
      else
        r.end == Placed && r.state == s.(members := s.members + [Row(u, b, year)],
        activated := s.activated + {u.userId}, placed := s.placed + 1, clock := r.state.clock)
  }

  lemma {:induction false} FirstOpenSplits(w: World, members: seq<Member>, a: seq<Batch>, b: seq<Batch>)
    ensures var j := FirstOpen(w, members, a);
      FirstOpen(w, members, a + b) == if j < |a| then j else |a| + FirstOpen(w, members, b)
  {
    if a == [] {
      assert a + b == b;
    } else {
      assert (a + b)[1..] == a[1..] + b;
      FirstOpenSplits(w, members, a[1..], b);
    }
  }

  lemma {:induction false} FilledIsFirstFit(w: World, s: State, u: User, batches: seq<Batch>)
    requires Quiet(w)
    ensures FirstFit(w, s, u, batches, Filled(w, s, u, batches))
    decreases |batches|
  {
    if batches != [] {
      var r := Tried(w, s, u, batches[0]);
      if r.end == Next {
        FilledIsFirstFit(w, r.state, u, batches[1..]);
      }
    }
  }

  /** The nested loops are first-fit over all matching batches of all cohorts. */
  lemma {:induction false} VisitedIsFirstFit(w: World, s: State, u: User, block: string, cohorts: seq<string>)
    requires Quiet(w)
    ensures FirstFit(w, s, u, Flat(w, block, cohorts), Visited(w, s, u, block, cohorts))
    decreases |cohorts|
  {
    if cohorts != [] {
      var batches := w.Matching(cohorts[0], block);
      var r := Filled(w, s.Tick(), u, batches);
      FilledIsFirstFit(w, s.Tick(), u, batches);
      FirstOpenSplits(w, s.members, batches, Flat(w, block, cohorts[1..]));
      if r.end == Next {
        VisitedIsFirstFit(w, r.state, u, block, cohorts[1..]);
      }
    }
  }

  lemma HandledIsFirstFit(w: World, s: State, u: User)
    requires Quiet(w)
    ensures var r := Handled(w, s, u);
      FirstFit(w, s, u, Candidates(w, u), r.(state := r.state.(skipped := s.skipped)))
  {
    if u.mode == Some("remote") && u.district != None && u.block != None {
      VisitedIsFirstFit(w, s.Tick(), u, u.block.value, w.Cohorts(u.district.value));
    }
  }

  lemma FullStays(w: World, before: seq<Member>, after: seq<Member>, b: Batch)
    requires Kept(before, after) && Full(w, before, b)
    ensures Full(w, after, b)
  {
  }

  /** The user's batches up to the j-th are full, as far as they have a year mapping. */
  predicate FullUpTo(w: World, members: seq<Member>, batches: seq<Batch>, j: nat)
    requires j <= |batches|
  {
    forall k :: 0 <= k < j ==> Full(w, members, batches[k])
  }

  /** The first-fit promise, in the rows as they are when the run is over. */
  predicate Served(w: World, u: User, end: End, before: seq<Member>, final: seq<Member>) {
    var batches := Candidates(w, u);
    match end
    case Next => FullUpTo(w, final, batches, |batches|)
    case Placed =>
      exists j :: 0 <= j < |batches| && IsPlaced(w, u, batches, j, before, final)
    case Already =>
      exists j :: 0 <= j < |batches| && FullUpTo(w, final, batches, j) && !Full(w, before, batches[j])
               && IsMember(w, before, u, batches[j])
    case Threw => false
  }

  predicate IsPlaced(w: World, u: User, batches: seq<Batch>, j: nat, before: seq<Member>, final: seq<Member>)
    requires j < |batches|
  {
    && FullUpTo(w, final, batches, j) && !Full(w, before, batches[j])
    && |before| < |final| && final[|before|] == Row(u, batches[j], w.yearOf[batches[j].cohortId])
  }

  /**
   When no call fails: a user counted as "no available batch" faces only full batches when the run is
   over, and a placed user went to the first batch with room, all earlier ones being full.
   */
  lemma FirstFitHolds(w: World, s: State, users: seq<User>, i: nat)
    requires Quiet(w) && i < |users|
    ensures Served(w, users[i], EndOf(w, s, users, i), Run(w, s, users[..i]).members, Run(w, s, users).members)
  {
    var before, u := Run(w, s, users[..i]), users[i];
    var after, final := Run(w, s, users[..i + 1]).members, Run(w, s, users).members;
    var batches := Candidates(w, u);
    var j := FirstOpen(w, before.members, batches);
    assert users[..|users|] == users;
    RunStep(w, s, users, i);
    RunGrows(w, s, users, i, |users|);
    RunGrows(w, s, users, i + 1, |users|);
    HandledIsFirstFit(w, before, u);
    forall k | 0 <= k < j ensures Full(w, final, batches[k]) {
      FullStays(w, before.members, final, batches[k]);
    }
    assert FullUpTo(w, final, batches, j);
    if j < |batches| && EndOf(w, s, users, i) == Placed {
      assert final[|before.members|] == after[|before.members|];
      assert IsPlaced(w, u, batches, j, before.members, final);
    }
  }

  lemma {:induction false} QuietHasNoErrors(w: World, s: State, users: seq<User>)
    requires Quiet(w)
    ensures Run(w, s, users).errors == s.errors
  {
    if users != [] {
      var n := |users| - 1;
      QuietHasNoErrors(w, s, users[..n]);
      HandledIsFirstFit(w, Run(w, s, users[..n]), users[n]);
    }
  }

  // ---------------------------------------------------------------- when nothing is reported to fail

  /** The same world with calls that do not fail. */
  function Calm(w: World): World {
    w.(faults := (op: Op, t: nat) => Fine)
  }

  /** Errors are only added, and with none added everything is as if no call had failed. */
  predicate CalmIfSilent(s: State, r: Result, calm: Result) {
    s.errors <= r.state.errors && (r.state.errors == s.errors ==> r == calm)
  }

  lemma TriedCalm(w: World, s: State, u: User, b: Batch)
    ensures CalmIfSilent(s, Tried(w, s, u, b), Tried(Calm(w), s, u, b))
  {
  }

  lemma {:induction false} FilledCalm(w: World, s: State, u: User, batches: seq<Batch>)
    ensures CalmIfSilent(s, Filled(w, s, u, batches), Filled(Calm(w), s, u, batches))
    decreases |batches|
  {
    if batches != [] {
      TriedCalm(w, s, u, batches[0]);
      FilledCalm(w, Tried(w, s, u, batches[0]).state, u, batches[1..]);
    }
  }

  /** A failed search for batches is reported one level up. */
  lemma {:induction false} VisitedCalm(w: World, s: State, u: User, block: string, cohorts: seq<string>)
    ensures var r := Visited(w, s, u, block, cohorts);
      s.errors <= r.state.errors
      && (r.end != Threw && r.state.errors == s.errors ==> r == Visited(Calm(w), s, u, block, cohorts))
    decreases |cohorts|
  {
    if cohorts != [] && !w.Throws(FindBatches, s.clock) {
      var batches := w.Matching(cohorts[0], block);
      FilledCalm(w, s.Tick(), u, batches);
      VisitedCalm(w, Filled(w, s.Tick(), u, batches).state, u, block, cohorts[1..]);
    }
  }

  lemma HandledCalm(w: World, s: State, u: User)
    ensures CalmIfSilent(s, Handled(w, s, u), Handled(Calm(w), s, u))
  {
    if u.mode == Some("remote") && u.district != None && u.block != None {
      VisitedCalm(w, s.Tick(), u, u.block.value, w.Cohorts(u.district.value));
    }
  }

  lemma {:induction false} RunCalm(w: World, s: State, users: seq<User>, n: nat)
    requires n <= |users|
    ensures s.errors <= Run(w, s, users[..n]).errors <= Run(w, s, users).errors
    ensures Run(w, s, users).errors == s.errors ==> Run(w, s, users[..n]) == Run(Calm(w), s, users[..n])
  {
    RunSilent(w, s, users, n);
    RunErrors(w, s, users, n);
  }

  lemma {:induction false} RunSilent(w: World, s: State, users: seq<User>, n: nat)
    requires n <= |users|
    ensures s.errors <= Run(w, s, users[..n]).errors
    ensures Run(w, s, users[..n]).errors == s.errors ==> Run(w, s, users[..n]) == Run(Calm(w), s, users[..n])
  {
    if n > 0 {
      RunSilent(w, s, users, n - 1);
      RunStep(w, s, users, n - 1);
      RunStep(Calm(w), s, users, n - 1);
      HandledCalm(w, Run(w, s, users[..n - 1]), users[n - 1]);
    }
  }

  lemma {:induction false} RunErrors(w: World, s: State, users: seq<User>, n: nat)
    requires n <= |users|
    ensures Run(w, s, users[..n]).errors <= Run(w, s, users).errors
    decreases |users| - n
  {
    if n < |users| {
      RunStep(w, s, users, n);
      HandledCalm(w, Run(w, s, users[..n]), users[n]);
      RunErrors(w, s, users, n + 1);
    } else {
      assert users[..n] == users;
    }
  }

  lemma {:induction false} FlatCalm(w: World, block: string, cohorts: seq<string>)
    ensures Flat(Calm(w), block, cohorts) == Flat(w, block, cohorts)
  {
    if cohorts != [] {
      FlatCalm(w, block, cohorts[1..]);
    }
  }

  /**
   A run that reports no error kept the first-fit promise: whatever the calls were to do, nothing can
   have failed on the way.
   */
  lemma SilentRunHolds(w: World, s: State, users: seq<User>, i: nat)
    requires i < |users| && Run(w, s, users).errors == s.errors
    ensures Served(w, users[i], EndOf(w, s, users, i), Run(w, s, users[..i]).members, Run(w, s, users).members)
  {
    var u := users[i];
    assert users[..|users|] == users;
    RunCalm(w, s, users, i);
    RunCalm(w, s, users, i + 1);
    RunCalm(w, s, users, |users|);
    RunStep(w, s, users, i);
    HandledCalm(w, Run(w, s, users[..i]), u);
    FirstFitHolds(Calm(w), s, users, i);
    if u.district != None && u.block != None {
      FlatCalm(w, u.block.value, w.Cohorts(u.district.value));
    }
    assert Candidates(Calm(w), u) == Candidates(w, u);
    SameServed(w, u, EndOf(w, s, users, i), Run(w, s, users[..i]).members, Run(w, s, users).members);
  }

  lemma SameServed(w: World, u: User, end: End, before: seq<Member>, final: seq<Member>)
    requires Candidates(Calm(w), u) == Candidates(w, u) && Served(Calm(w), u, end, before, final)
    ensures Served(w, u, end, before, final)
  {
    var batches := Candidates(w, u);
    assert forall members, b :: Full(Calm(w), members, b) == Full(w, members, b);
    if end == Placed {
      var j :| 0 <= j < |batches| && IsPlaced(Calm(w), u, batches, j, before, final);
      assert IsPlaced(w, u, batches, j, before, final);
    }
  }
}
