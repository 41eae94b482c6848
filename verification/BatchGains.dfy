/**
 How many rows a run of the allocator adds for a user, however its calls end: one for each time the user
 is placed, and one for each try that stores a row and fails after it.
 */
module BatchGains {
  import opened BatchAllocator
  import opened CohortMember
  import opened JsValues

  /** The try gets as far as the save. */
  predicate ReachesSave(w: World, s: State, u: User, b: Batch) {
    && !w.Throws(FindYear, s.clock) && !w.Throws(CountMembers, s.clock + 1) && !w.Throws(FindMember, s.clock + 2)
    && CanTake(w, s.members, u, b)
  }

  /**
   The save stores the row, but it throws, or the mapping update after it does: the row stays and the
   loop goes on.
   */
  predicate Strays(w: World, s: State, u: User, b: Batch) {
    && ReachesSave(w, s, u, b)
    && (w.faults(SaveMember, s.clock + 3) == Landed
        || (!w.Throws(SaveMember, s.clock + 3) && w.Throws(UpdateTenant, s.clock + 4)))
  }

  function StraysInBatches(w: World, s: State, u: User, batches: seq<Batch>): nat
    decreases |batches|
  {
    if batches == [] then 0
    else
      var r := Tried(w, s, u, batches[0]);
      (if Strays(w, s, u, batches[0]) then 1 else 0)
      + if r.end == Next then StraysInBatches(w, r.state, u, batches[1..]) else 0
  }

  function StraysInCohorts(w: World, s: State, u: User, block: string, cohorts: seq<string>): nat
    decreases |cohorts|
  {
    if cohorts == [] || w.Throws(FindBatches, s.clock) then 0
    else
      var batches := w.Matching(cohorts[0], block);
      var r := Filled(w, s.Tick(), u, batches);
      StraysInBatches(w, s.Tick(), u, batches)
      + if r.end == Next then StraysInCohorts(w, r.state, u, block, cohorts[1..]) else 0
  }

  /** How often a row is stored for the user by a try that fails after it. */
  function StraysOf(w: World, s: State, u: User): nat {
    if u.mode != Some("remote") || u.district == None || u.block == None || w.Throws(FindCohorts, s.clock) then 0
    else StraysInCohorts(w, s.Tick(), u, u.block.value, w.Cohorts(u.district.value))
  }

  /** The same over the run, for the users with this id. */
  function StrayCount(w: World, s: State, users: seq<User>, id: string): nat {
    if users == [] then 0
    else
      var n := |users| - 1;
      StrayCount(w, s, users[..n], id)
      + if users[n].userId == id then StraysOf(w, Run(w, s, users[..n]), users[n]) else 0
  }

  /** How often the run places a user with this id. */
  function PlacedCount(w: World, s: State, users: seq<User>, id: string): nat {
    if users == [] then 0
    else
      var n := |users| - 1;
      PlacedCount(w, s, users[..n], id)
      + if users[n].userId == id && Handled(w, Run(w, s, users[..n]), users[n]).end == Placed then 1 else 0
  }

  /** The user gets a row for each stray and one more if placed; nobody else gets any. */
  ghost predicate Gains(s: State, u: User, r: Result, strays: nat) {
    forall id :: RowsOf(r.state.members, id)
              == RowsOf(s.members, id) + if id != u.userId then 0 else strays + if r.end == Placed then 1 else 0
  }

  lemma TriedStores(w: World, s: State, u: User, b: Batch)
    ensures var r := Tried(w, s, u, b);
      && (r.state.members != s.members <==> r.end == Placed || Strays(w, s, u, b))
      && (r.end == Placed ==> !Strays(w, s, u, b))
      && (Strays(w, s, u, b) ==> r.end == Next)
  {
  }

  lemma TriedGains(w: World, s: State, u: User, b: Batch)
    ensures Gains(s, u, Tried(w, s, u, b), if Strays(w, s, u, b) then 1 else 0)
  {
    TriedStores(w, s, u, b);
  }

  lemma {:induction false} FilledGains(w: World, s: State, u: User, batches: seq<Batch>)
    ensures Gains(s, u, Filled(w, s, u, batches), StraysInBatches(w, s, u, batches))
    decreases |batches|
  {
    if batches != [] {
      TriedGains(w, s, u, batches[0]);
      TriedStores(w, s, u, batches[0]);
      FilledGains(w, Tried(w, s, u, batches[0]).state, u, batches[1..]);
    }
  }

  lemma {:induction false} VisitedGains(w: World, s: State, u: User, block: string, cohorts: seq<string>)
    ensures Gains(s, u, Visited(w, s, u, block, cohorts), StraysInCohorts(w, s, u, block, cohorts))
    decreases |cohorts|
  {
    if cohorts != [] {
      var batches := w.Matching(cohorts[0], block);
      FilledGains(w, s.Tick(), u, batches);
      VisitedGains(w, Filled(w, s.Tick(), u, batches).state, u, block, cohorts[1..]);
    }
  }

  lemma HandledGains(w: World, s: State, u: User)
    ensures Gains(s, u, Handled(w, s, u), StraysOf(w, s, u))
  {
    if u.mode == Some("remote") && u.district != None && u.block != None {
      VisitedGains(w, s.Tick(), u, u.block.value, w.Cohorts(u.district.value));
    }
  }

  /** However the calls end: a user gains a row for each time placed and one for each try that failed after its save. */
  lemma {:induction false} RowsGained(w: World, s: State, users: seq<User>, id: string)
    ensures RowsOf(Run(w, s, users).members, id)
         == RowsOf(s.members, id) + PlacedCount(w, s, users, id) + StrayCount(w, s, users, id)
  {
    if users != [] {
      var n := |users| - 1;
      RowsGained(w, s, users[..n], id);
      HandledGains(w, Run(w, s, users[..n]), users[n]);
    }
  }

  predicate ListedOnce(users: seq<User>) {
    forall i, j :: 0 <= i < j < |users| ==> users[i].userId != users[j].userId
  }

  predicate Lists(users: seq<User>, id: string) {
    exists i :: 0 <= i < |users| && users[i].userId == id
  }

  lemma {:induction false} PlacedAtMostOnce(w: World, s: State, users: seq<User>, id: string)
    requires ListedOnce(users)
    ensures PlacedCount(w, s, users, id) <= if Lists(users, id) then 1 else 0
    ensures !Lists(users, id) ==> StrayCount(w, s, users, id) == 0
  {
    if users != [] {
      var n := |users| - 1;
      PlacedAtMostOnce(w, s, users[..n], id);
      if Lists(users[..n], id) {
        var i :| 0 <= i < n && users[..n][i].userId == id;
        assert users[i].userId == id;
      }
    }
  }

  /**
   On a list without duplicates a user gains at most one row exactly when no try for the user fails
   after its save, or a single one does and the user ends up not placed.
   */
  lemma OnePlacementIff(w: World, s: State, users: seq<User>, id: string)
    requires ListedOnce(users)
    ensures RowsOf(Run(w, s, users).members, id) <= RowsOf(s.members, id) + 1
            <==> StrayCount(w, s, users, id) == 0
                 || (StrayCount(w, s, users, id) == 1 && PlacedCount(w, s, users, id) == 0)
    ensures !Lists(users, id) ==> RowsOf(Run(w, s, users).members, id) == RowsOf(s.members, id)
  {
    RowsGained(w, s, users, id);
    PlacedAtMostOnce(w, s, users, id);
  }

  /** Reads may fail, but a save that throws saved nothing and the mapping update does not throw. */
  ghost predicate SafeWrites(w: World) {
    forall t :: w.faults(SaveMember, t) != Landed && !w.Throws(UpdateTenant, t)
  }

  lemma {:induction false} NoStrays(w: World, s: State, users: seq<User>, id: string)
    requires SafeWrites(w)
    ensures StrayCount(w, s, users, id) == 0
  {
    if users != [] {
      var n := |users| - 1;
      NoStrays(w, s, users[..n], id);
      if users[n].block != None && users[n].district != None {
        NoStraysInCohorts(w, Run(w, s, users[..n]).Tick(), users[n], users[n].block.value,
          w.Cohorts(users[n].district.value));
      }
    }
  }

  lemma {:induction false} NoStraysInCohorts(w: World, s: State, u: User, block: string, cohorts: seq<string>)
    requires SafeWrites(w)
    ensures StraysInCohorts(w, s, u, block, cohorts) == 0
    decreases |cohorts|
  {
    if cohorts != [] {
      var batches := w.Matching(cohorts[0], block);
      NoStraysInBatches(w, s.Tick(), u, batches);
      NoStraysInCohorts(w, Filled(w, s.Tick(), u, batches).state, u, block, cohorts[1..]);
    }
  }

  lemma {:induction false} NoStraysInBatches(w: World, s: State, u: User, batches: seq<Batch>)
    requires SafeWrites(w)
    ensures StraysInBatches(w, s, u, batches) == 0
    decreases |batches|
  {
    if batches != [] {
      NoStraysInBatches(w, Tried(w, s, u, batches[0]).state, u, batches[1..]);
    }
  }

  /** On a list without duplicates each user gains at most one row, and nobody else gains any, whichever reads fail. */
  lemma OnePlacementPerUser(w: World, s: State, users: seq<User>, id: string)
    requires SafeWrites(w) && ListedOnce(users)
    ensures RowsOf(s.members, id) <= RowsOf(Run(w, s, users).members, id)
         <= RowsOf(s.members, id) + if Lists(users, id) then 1 else 0
  {
    RowsGained(w, s, users, id);
    NoStrays(w, s, users, id);
    PlacedAtMostOnce(w, s, users, id);
  }

  // ---------------------------------------------------------------- when nothing fails and users are listed again

  /** Where the i-th user would go: the first batch with room when the turn comes. */
  function FirstChoice(w: World, s: State, users: seq<User>, i: nat): Option<Batch>
    requires i < |users|
  {
    var batches := Candidates(w, users[i]);
    var j := FirstOpen(w, Run(w, s, users[..i]).members, batches);
    if j < |batches| then Some(batches[j]) else None
  }

  /** How many of the first n users the run places into a batch. */
  function Arrivals(w: World, s: State, users: seq<User>, n: nat, cohortId: string): nat
    requires n <= |users|
  {
    if n == 0 then 0
    else
      var choice := FirstChoice(w, s, users, n - 1);
      Arrivals(w, s, users, n - 1, cohortId)
      + if EndOf(w, s, users, n - 1) == Placed && choice.Some? && choice.value.cohortId == cohortId then 1 else 0
  }

  /** Each turn of a run without failures, by the first choice. */
  lemma TurnIs(w: World, s: State, users: seq<User>, i: nat)
    requires Quiet(w) && i < |users|
    ensures var before, after, choice := Run(w, s, users[..i]).members, Run(w, s, users[..i + 1]).members,
        FirstChoice(w, s, users, i);
      && (EndOf(w, s, users, i) == Placed <==> choice.Some? && !IsMember(w, before, users[i], choice.value))
      && (choice.Some? ==> choice.value.cohortId in w.yearOf)
      && after == before + if EndOf(w, s, users, i) == Placed
                           then [Row(users[i], choice.value, w.yearOf[choice.value.cohortId])] else []
  {
    RunStep(w, s, users, i);
    HandledIsFirstFit(w, Run(w, s, users[..i]), users[i]);
  }

  lemma OneArrives(w: World, members: seq<Member>, u: User, b: Batch, cohortId: string)
    requires b.cohortId in w.yearOf && cohortId in w.yearOf
    ensures CountActive(members + [Row(u, b, w.yearOf[b.cohortId])], cohortId, w.yearOf[cohortId])
         == CountActive(members, cohortId, w.yearOf[cohortId]) + if b.cohortId == cohortId then 1 else 0
  {
    assert (members + [Row(u, b, w.yearOf[b.cohortId])])[..|members|] == members;
  }

  /** A batch holds the members it held at first and the users placed there since. */
  lemma {:induction false} HoldsArrivals(w: World, s: State, users: seq<User>, n: nat, cohortId: string)
    requires Quiet(w) && n <= |users| && cohortId in w.yearOf
    ensures CountActive(Run(w, s, users[..n]).members, cohortId, w.yearOf[cohortId])
         == CountActive(s.members, cohortId, w.yearOf[cohortId]) + Arrivals(w, s, users, n, cohortId)
  {
    if n > 0 {
      HoldsArrivals(w, s, users, n - 1, cohortId);
      TurnIs(w, s, users, n - 1);
      var before := Run(w, s, users[..n - 1]).members;
      assert before + [] == before;
      if EndOf(w, s, users, n - 1) == Placed {
        OneArrives(w, before, users[n - 1], FirstChoice(w, s, users, n - 1).value, cohortId);
      }
    }
  }

  /** The batch that the i-th user was placed into has filled up before the j-th turn. */
  predicate FilledUp(w: World, s: State, users: seq<User>, i: nat, j: nat)
    requires i < j < |users| && FirstChoice(w, s, users, i).Some?
  {
    var cohortId := FirstChoice(w, s, users, i).value.cohortId;
    cohortId in w.yearOf ==>
      CountActive(s.members, cohortId, w.yearOf[cohortId]) + Arrivals(w, s, users, j, cohortId) >= Capacity
  }

  /** Another batch is open to the j-th user, who is not in it yet. */
  predicate FindsAnother(w: World, s: State, users: seq<User>, j: nat)
    requires j < |users|
  {
    var choice := FirstChoice(w, s, users, j);
    choice.Some? && !IsMember(w, Run(w, s, users[..j]).members, users[j], choice.value)
  }

  /** A user placed before and listed again is placed again exactly when the batch has filled up and another is open. */
  lemma AgainIff(w: World, s: State, users: seq<User>, i: nat, j: nat)
    requires Quiet(w) && i < j < |users| && users[i] == users[j] && EndOf(w, s, users, i) == Placed
    ensures FirstChoice(w, s, users, i).Some?
    ensures EndOf(w, s, users, j) == Placed <==> FilledUp(w, s, users, i, j) && FindsAnother(w, s, users, j)
  {
    var b := AgainBatch(w, s, users, i, j);
    TurnIs(w, s, users, j);
    HoldsArrivals(w, s, users, j, b.cohortId);
  }

  /** While the batch of the earlier turn has room it is the first choice again, and the user is in it. */
  lemma AgainBatch(w: World, s: State, users: seq<User>, i: nat, j: nat) returns (b: Batch)
    requires Quiet(w) && i < j < |users| && users[i] == users[j] && EndOf(w, s, users, i) == Placed
    ensures FirstChoice(w, s, users, i) == Some(b) && b.cohortId in w.yearOf
    ensures var now := Run(w, s, users[..j]).members;
      !Full(w, now, b) ==> FirstChoice(w, s, users, j) == Some(b) && IsMember(w, now, users[j], b)
  {
    var before, now, batches := Run(w, s, users[..i]).members, Run(w, s, users[..j]).members, Candidates(w, users[i]);
    TurnIs(w, s, users, i);
    RunGrows(w, s, users, i, j);
    RunGrows(w, s, users, i + 1, j);
    var k := FirstOpen(w, before, batches);
    b := batches[k];
    var after := Run(w, s, users[..i + 1]).members;
    assert after[|before|].seat == Seat(users[i].userId, b.cohortId, w.yearOf[b.cohortId]);
    HasRowGrows(after, now, after[|before|].seat);
    forall m | 0 <= m < k ensures Full(w, now, batches[m]) {
      FullStays(w, before, now, batches[m]);
    }
    if !Full(w, now, b) {
      FirstOpenIs(w, now, batches, k);
    }
  }

  lemma {:induction false} FirstOpenIs(w: World, members: seq<Member>, batches: seq<Batch>, k: nat)
    requires k < |batches| && !Full(w, members, batches[k])
    requires forall m :: 0 <= m < k ==> Full(w, members, batches[m])
    ensures FirstOpen(w, members, batches) == k
  {
    var j := FirstOpen(w, members, batches);
    assert j >= k;
  }

  /** The i-th turn is this user's and places the user. */
  predicate Places(w: World, s: State, users: seq<User>, id: string, i: nat)
    requires i < |users|
  {
    users[i].userId == id && EndOf(w, s, users, i) == Placed
  }

  lemma {:induction false} PlacedCountIs(w: World, s: State, users: seq<User>, id: string, n: nat)
    requires n <= |users|
    ensures PlacedCount(w, s, users[..n], id) >= 1 <==> exists i :: 0 <= i < n && Places(w, s, users, id, i)
    ensures PlacedCount(w, s, users[..n], id) >= 2
            <==> exists i, j :: 0 <= i < j < n && Places(w, s, users, id, i) && Places(w, s, users, id, j)
  {
    if n > 0 {
      PlacedCountIs(w, s, users, id, n - 1);
      assert users[..n][..n - 1] == users[..n - 1];
      assert PlacedCount(w, s, users[..n], id)
          == PlacedCount(w, s, users[..n - 1], id) + if Places(w, s, users, id, n - 1) then 1 else 0;
    }
  }

  /** The users with this id are one record, as they are when a list repeats a user. */
  predicate OneRecord(users: seq<User>, id: string) {
    forall i, j :: 0 <= i < |users| && 0 <= j < |users| && users[i].userId == id && users[j].userId == id ==>
      users[i] == users[j]
  }

  /** At the j-th turn the batch of the i-th has filled up and another one is open to the user. */
  predicate ComesAgain(w: World, s: State, users: seq<User>, i: nat, j: nat)
    requires i < j < |users|
  {
    FirstChoice(w, s, users, i).Some? && FilledUp(w, s, users, i, j) && FindsAnother(w, s, users, j)
  }

  ghost predicate NeverAgain(w: World, s: State, users: seq<User>, id: string) {
    forall i, j :: 0 <= i < j < |users| && Places(w, s, users, id, i) && users[j].userId == id ==>
      !ComesAgain(w, s, users, i, j)
  }

  lemma QuietIsSafe(w: World)
    requires Quiet(w)
    ensures SafeWrites(w)
  {
    forall t ensures w.faults(SaveMember, t) != Landed && !w.Throws(UpdateTenant, t) {
      assert !w.Throws(SaveMember, t) && !w.Throws(UpdateTenant, t);
    }
  }

  lemma PlacesAgainIff(w: World, s: State, users: seq<User>, id: string, i: nat, j: nat)
    requires Quiet(w) && OneRecord(users, id)
    requires i < j < |users| && Places(w, s, users, id, i) && users[j].userId == id
    ensures Places(w, s, users, id, j) <==> ComesAgain(w, s, users, i, j)
  {
    AgainIff(w, s, users, i, j);
  }

  lemma PlacedOnceIff(w: World, s: State, users: seq<User>, id: string)
    requires Quiet(w) && OneRecord(users, id)
    ensures PlacedCount(w, s, users, id) <= 1 <==> NeverAgain(w, s, users, id)
  {
    PlacedCountIs(w, s, users, id, |users|);
    assert users[..|users|] == users;
    if PlacedCount(w, s, users, id) >= 2 {
      var i, j :| 0 <= i < j < |users| && Places(w, s, users, id, i) && Places(w, s, users, id, j);
      PlacesAgainIff(w, s, users, id, i, j);
    }
    if !NeverAgain(w, s, users, id) {
      var i, j :| 0 <= i < j < |users| && Places(w, s, users, id, i) && users[j].userId == id
        && ComesAgain(w, s, users, i, j);
      PlacesAgainIff(w, s, users, id, i, j);
    }
  }

  /**
   When nothing fails a user gains at most one row, however often listed, exactly when at no later turn
   of the user the batch of an earlier turn has filled up, by the members it had and the arrivals since,
   while another batch is open to the user.
   */
  lemma ListedAgainIff(w: World, s: State, users: seq<User>, id: string)
    requires Quiet(w) && OneRecord(users, id)
    ensures RowsOf(Run(w, s, users).members, id) <= RowsOf(s.members, id) + 1 <==> NeverAgain(w, s, users, id)
  {
    RowsGained(w, s, users, id);
    QuietIsSafe(w);
    NoStrays(w, s, users, id);
    PlacedOnceIff(w, s, users, id);
  }

  // A user with two matching batches, and one write that throws at the first of them.

  const Learner := User("u", Some("remote"), Some("36"), Some("881"))
  const BatchB := Batch("b", Some("881"))
  const BatchC := Batch("c", Some("881"))
  const RowB := Row(Learner, BatchB, "yb")
  const RowC := Row(Learner, BatchC, "yc")

  function TwoBatches(faults: (Op, nat) -> Fault): World {
    World(map["36" := ["k"]], map["k" := [BatchB, BatchC]], map["b" := "yb", "c" := "yc"], faults)
  }

  function FailingUpdate(fault: Fault): World {
    TwoBatches((op: Op, t: nat) => if op == UpdateTenant && t == 6 then fault else Fine)
  }

  function LandingSave(): World {
    TwoBatches((op: Op, t: nat) => if op == SaveMember && t == 5 then Landed else Fine)
  }

  lemma FirstTryThrows(fault: Fault)
    requires fault != Fine
    ensures Tried(FailingUpdate(fault), State([], {}, 2, 0, 0, []), Learner, BatchB)
         == Result(State([RowB], if fault == Landed then {"u"} else {}, 7, 0, 0, [InBatch("u", "b")]), Next)
  {
  }

  lemma FirstSaveLands()
    ensures Tried(LandingSave(), State([], {}, 2, 0, 0, []), Learner, BatchB)
         == Result(State([RowB], {}, 6, 0, 0, [InBatch("u", "b")]), Next)
  {
  }

  lemma SecondTryPlaces(w: World, s: State)
    requires w.yearOf == map["b" := "yb", "c" := "yc"] && s.members == [RowB]
    requires forall op, t: nat :: w.Throws(op, t) ==> t < s.clock
    ensures var r := Tried(w, s, Learner, BatchC);
      r.end == Placed && r.state.members == [RowB, RowC] && r.state.placed == s.placed + 1 && r.state.errors == s.errors
  {
    assert [RowB][..0] == [];
    assert CountActive([RowB], "c", "yc") == 0;
  }

  lemma LearnersBatches(w: World)
    requires w.batchesOf == map["k" := [BatchB, BatchC]]
    ensures w.Matching("k", "881") == [BatchB, BatchC]
  {
    assert [BatchB, BatchC][1..] == [BatchC];
    assert InBlock([BatchC], "881") == [BatchC];
  }

  lemma LearnerHandled(w: World, s: State)
    requires w.cohortsIn == map["36" := ["k"]] && w.Matching("k", "881") == [BatchB, BatchC]
    requires !w.Throws(FindCohorts, s.clock) && !w.Throws(FindBatches, s.clock + 1)
    requires Filled(w, s.Tick().Tick(), Learner, [BatchB, BatchC]).end == Placed
    ensures Handled(w, s, Learner) == Filled(w, s.Tick().Tick(), Learner, [BatchB, BatchC])
  {
  }

  /** A first try that stores its row and fails, a second that places. */
  lemma InBothBatches(w: World, s: State)
    requires w == TwoBatches(w.faults) && s == State([], {}, 0, 0, 0, [])
    requires !w.Throws(FindCohorts, 0) && !w.Throws(FindBatches, 1)
    requires var first := Tried(w, s.Tick().Tick(), Learner, BatchB);
      && first.end == Next && first.state.members == [RowB] && first.state.placed == 0
      && first.state.errors == [InBatch("u", "b")]
      && forall op, t: nat :: w.Throws(op, t) ==> t < first.state.clock
    ensures var r := Run(w, s, [Learner]);
      r.members == [RowB, RowC] && r.placed == 1 && r.errors == [InBatch("u", "b")]
  {
    SecondTryPlaces(w, Tried(w, s.Tick().Tick(), Learner, BatchB).state);
    assert [BatchB, BatchC][1..] == [BatchC];
    LearnersBatches(w);
    LearnerHandled(w, s);
    assert [Learner][..0] == [];
  }

  /** With a mapping update that throws the loop tries the next batch, and the user is in both. */
  lemma FailedUpdatePlacesTwice(fault: Fault)
    requires fault != Fine
    ensures var r := Run(FailingUpdate(fault), Begin([], {}, 0), [Learner]);
      r.members == [RowB, RowC] && r.placed == 1 && r.errors == [InBatch("u", "b")]
  {
    FirstTryThrows(fault);
    InBothBatches(FailingUpdate(fault), Begin([], {}, 0));
  }

  /** So it does after a save that stores the row and throws. */
  lemma LandedSavePlacesTwice()
    ensures var r := Run(LandingSave(), Begin([], {}, 0), [Learner]);
      r.members == [RowB, RowC] && r.placed == 1 && r.errors == [InBatch("u", "b")]
  {
    FirstSaveLands();
    InBothBatches(LandingSave(), Begin([], {}, 0));
  }

  function Other(n: nat): Member
    requires n > 0
  {
    Member(Seat(seq(n, _ => 'x'), "b", "yb"), ACTIVE, None, "login", "login")
  }

  /** The first n places of the first batch, taken by others. */
  function Others(n: nat): seq<Member> {
    if n == 0 then [] else Others(n - 1) + [Other(n)]
  }

  /** So many active members in each batch, and the learner in neither. */
  predicate Holds(members: seq<Member>, inB: nat, inC: nat) {
    && CountActive(members, "b", "yb") == inB && CountActive(members, "c", "yc") == inC
    && !HasRow(members, RowB.seat) && !HasRow(members, RowC.seat)
  }

  lemma OneOther(members: seq<Member>, inB: nat, n: nat)
    requires n > 0 && Holds(members, inB, 0)
    ensures Holds(members + [Other(n)], inB + 1, 0)
  {
    assert Other(n).seat.userId[0] == 'x' && RowB.seat.userId[0] == 'u' && RowC.seat.userId[0] == 'u';
  }

  lemma {:induction false} OthersFill(n: nat)
    ensures Holds(Others(n), n, 0)
  {
    if n > 0 {
      OthersFill(n - 1);
      OneOther(Others(n - 1), n - 1, n);
    }
  }

  lemma LearnerFits(w: World, s: State)
    requires Quiet(w) && w == TwoBatches(w.faults)
    ensures var r := Handled(w, s, Learner);
      FirstFit(w, s, Learner, [BatchB, BatchC], r.(state := r.state.(skipped := s.skipped)))
  {
    HandledIsFirstFit(w, s, Learner);
    LearnersBatches(w);
    assert Flat(w, "881", ["k"]) == [BatchB, BatchC] by {
      assert ["k"][1..] == [] && Flat(w, "881", []) == [];
    }
  }

  lemma TakesLastPlace(w: World, s: State)
    requires Quiet(w) && w == TwoBatches(w.faults) && Holds(s.members, 99, 0)
    ensures var r := Handled(w, s, Learner).state;
      r.members == s.members + [RowB] && r.placed == s.placed + 1
  {
    LearnerFits(w, s);
    assert FirstOpen(w, s.members, [BatchB, BatchC]) == 0;
  }

  lemma GoesOnToNext(w: World, members: seq<Member>, s: State)
    requires Quiet(w) && w == TwoBatches(w.faults) && Holds(members, 99, 0) && s.members == members + [RowB]
    ensures var r := Handled(w, s, Learner).state;
      r.members == s.members + [RowC] && r.placed == s.placed + 1
  {
    LearnerFits(w, s);
    assert Full(w, s.members, BatchB) && !Full(w, s.members, BatchC);
    assert [BatchB, BatchC][1..] == [BatchC];
    assert FirstOpen(w, s.members, [BatchB, BatchC]) == 1;
    assert RowB.seat.cohortId == "b" && RowC.seat.cohortId == "c";
    assert !HasRow(s.members, RowC.seat);
  }

  lemma RunTwice(w: World, s: State, u: User)
    ensures Run(w, s, [u, u]) == Handled(w, Handled(w, s, u).state, u).state
  {
    assert [u, u][..1] == [u] && [u][..0] == [];
    assert Run(w, s, [u]) == Handled(w, s, u).state;
  }

  lemma BothPlaces(w: World, s: State)
    requires Quiet(w) && w == TwoBatches(w.faults) && Holds(s.members, 99, 0)
    ensures var r := Run(w, s, [Learner, Learner]);
      r.members == s.members + [RowB] + [RowC] && r.placed == s.placed + 2
  {
    TakesLastPlace(w, s);
    GoesOnToNext(w, s.members, Handled(w, s, Learner).state);
    RunTwice(w, s, Learner);
  }

  /**
   A user listed twice who takes the last place of one batch goes to the next one as well, though
   nothing fails; `Others(99)` is such a table.
   */
  lemma ListedTwicePlacedTwice(others: seq<Member>)
    requires Holds(others, 99, 0)
    ensures var r := Run(TwoBatches((op: Op, t: nat) => Fine), Begin(others, {}, 0), [Learner, Learner]);
      r.members == others + [RowB] + [RowC] && r.placed == 2 && r.errors == []
  {
    var w := TwoBatches((op: Op, t: nat) => Fine);
    BothPlaces(w, Begin(others, {}, 0));
    QuietHasNoErrors(w, Begin(others, {}, 0), [Learner, Learner]);
  }
}
