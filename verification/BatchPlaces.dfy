/**
 What the allocator promises, said of the tables themselves: the cohorts listed for a district, the
 batches listed for a cohort, the block each batch names, and the rows. A place of a user is a position
 in these lists; earlier places come first.
 */
module BatchPlaces {
  import opened JsValues
  import opened CohortMember
  import opened BatchAllocator

  /** The `b`-th batch of the `c`-th cohort of the user's district is in the user's block. */
  predicate IsPlace(w: World, u: User, c: nat, b: nat) {
    && u.mode == Some("remote") && u.district.Some? && u.block.Some?
    && u.district.value in w.cohortsIn && InLists(w, u.block, w.cohortsIn[u.district.value], c, b)
  }

  predicate InLists(w: World, block: Option<string>, cohorts: seq<string>, c: nat, b: nat) {
    && c < |cohorts| && cohorts[c] in w.batchesOf
    && b < |w.batchesOf[cohorts[c]]| && w.batchesOf[cohorts[c]][b].block == block
  }

  function BatchAt(w: World, u: User, c: nat, b: nat): Batch
    requires IsPlace(w, u, c, b)
  {
    w.batchesOf[w.cohortsIn[u.district.value][c]][b]
  }

  predicate Earlier(c: nat, b: nat, c': nat, b': nat) {
    c < c' || (c == c' && b < b')
  }

  /** The active rows of a batch in a year, by their position. */
  function ActiveRows(members: seq<Member>, cohortId: string, yearId: string): set<nat> {
    set i: nat | i < |members| && IsActive(members[i], cohortId, yearId)
  }

  predicate IsActive(m: Member, cohortId: string, yearId: string) {
    m.seat.cohortId == cohortId && m.seat.yearId == yearId && m.status == ACTIVE
  }

  /** A hundred members, or no mapping to the year. */
  predicate NoRoom(w: World, members: seq<Member>, b: Batch) {
    b.cohortId in w.yearOf ==> |ActiveRows(members, b.cohortId, w.yearOf[b.cohortId])| >= 100
  }

  /** `m` is what is stored for a user who is put into the batch. */
  predicate PutsInto(w: World, u: User, b: Batch, m: Member) {
    && b.cohortId in w.yearOf
    && m == Member(Seat(u.userId, b.cohortId, w.yearOf[b.cohortId]), ACTIVE, None, u.userId, u.userId)
  }

  predicate SitsIn(w: World, members: seq<Member>, u: User, b: Batch) {
    b.cohortId in w.yearOf && exists m :: m in members && m.seat == Seat(u.userId, b.cohortId, w.yearOf[b.cohortId])
  }

  // ---------------------------------------------------------------- counting

  lemma {:induction false} CountIs(members: seq<Member>, cohortId: string, yearId: string)
    ensures CountActive(members, cohortId, yearId) == |ActiveRows(members, cohortId, yearId)|
  {
    if members != [] {
      var n: nat := |members| - 1;
      CountIs(members[..n], cohortId, yearId);
      var earlier := ActiveRows(members[..n], cohortId, yearId);
      assert ActiveRows(members, cohortId, yearId)
          == if IsActive(members[n], cohortId, yearId) then earlier + {n} else earlier;
    }
  }

  lemma {:induction false} RowsOfIs(members: seq<Member>, userId: string)
    ensures RowsOf(members, userId) == |set i: nat | i < |members| && members[i].seat.userId == userId|
  {
    if members != [] {
      var n: nat := |members| - 1;
      RowsOfIs(members[..n], userId);
      var earlier := set i: nat | i < n && members[..n][i].seat.userId == userId;
      assert (set i: nat | i < |members| && members[i].seat.userId == userId)
          == if members[n].seat.userId == userId then earlier + {n} else earlier;
    }
  }

  lemma FullIs(w: World, members: seq<Member>, b: Batch)
    ensures Full(w, members, b) <==> NoRoom(w, members, b)
  {
    if b.cohortId in w.yearOf {
      CountIs(members, b.cohortId, w.yearOf[b.cohortId]);
    }
  }

  // ---------------------------------------------------------------- the lists

  /** The batches of a block, each as often as it is listed. */
  lemma {:induction false} InBlockCounts(batches: seq<Batch>, block: string, x: Batch)
    ensures multiset(InBlock(batches, block))[x] == if x.block == Some(block) then multiset(batches)[x] else 0
  {
    if batches != [] {
      InBlockCounts(batches[1..], block, x);
      assert batches == [batches[0]] + batches[1..];
    }
  }

  /** Those of the first `b` batches that are in the block are among `found`. */
  ghost predicate ListedBefore(batches: seq<Batch>, block: string, b: nat, found: seq<Batch>)
    requires b <= |batches|
  {
    forall j :: 0 <= j < b && batches[j].block == Some(block) ==> batches[j] in found
  }

  lemma OneMoreBefore(batches: seq<Batch>, block: string, b: nat, found: seq<Batch>)
    requires batches != [] && b < |batches| && ListedBefore(batches[1..], block, b, found)
    ensures ListedBefore(batches, block, b + 1,
                         (if batches[0].block == Some(block) then [batches[0]] else []) + found)
  {
    forall j | 0 < j < b + 1 && batches[j].block == Some(block) ensures batches[j] in found {
      assert batches[1..][j - 1] == batches[j];
    }
  }

  /** They are in the order of the list: what is listed before the `k`-th comes before it. */
  lemma {:induction false} InBlockAt(batches: seq<Batch>, block: string, k: nat) returns (b: nat)
    requires k < |InBlock(batches, block)|
    ensures b < |batches| && batches[b] == InBlock(batches, block)[k] && batches[b].block == Some(block)
    ensures ListedBefore(batches, block, b, InBlock(batches, block)[..k])
  {
    var first := if batches[0].block == Some(block) then [batches[0]] else [];
    var rest := InBlock(batches[1..], block);
    if k < |first| {
      b := 0;
    } else {
      var b' := InBlockAt(batches[1..], block, k - |first|);
      b := b' + 1;
      OneMoreBefore(batches, block, b', rest[..k - |first|]);
      assert (first + rest)[..k] == first + rest[..k - |first|];
    }
  }

  lemma InBlockHas(batches: seq<Batch>, block: string, b: nat)
    requires b < |batches| && batches[b].block == Some(block)
    ensures batches[b] in InBlock(batches, block)
  {
    InBlockCounts(batches, block, batches[b]);
    assert batches[b] in multiset(batches);
    assert batches[b] in multiset(InBlock(batches, block));
  }

  lemma {:induction false} FlatHas(w: World, block: string, cohorts: seq<string>, c: nat, b: nat)
    requires InLists(w, Some(block), cohorts, c, b)
    ensures w.batchesOf[cohorts[c]][b] in Flat(w, block, cohorts)
    decreases |cohorts|
  {
    if c == 0 {
      InBlockHas(w.batchesOf[cohorts[0]], block, b);
    } else {
      FlatHas(w, block, cohorts[1..], c - 1, b);
    }
  }

  /** The `k`-th candidate stands at a place, and all places before it hold earlier candidates. */
  lemma {:induction false} FlatAt(w: World, block: string, cohorts: seq<string>, k: nat) returns (c: nat, b: nat)
    requires k < |Flat(w, block, cohorts)|
    ensures InLists(w, Some(block), cohorts, c, b) && w.batchesOf[cohorts[c]][b] == Flat(w, block, cohorts)[k]
    ensures ComeBefore(w, block, cohorts, c, b, Flat(w, block, cohorts)[..k])
    decreases |cohorts|
  {
    var first, rest := w.Matching(cohorts[0], block), Flat(w, block, cohorts[1..]);
    assert Flat(w, block, cohorts) == first + rest;
    if k < |first| {
      c := 0;
      b := InBlockAt(w.batchesOf[cohorts[0]], block, k);
      assert (first + rest)[..k] == first[..k];
    } else {
      var c';
      c', b := FlatAt(w, block, cohorts[1..], k - |first|);
      c := c' + 1;
      assert (first + rest)[..k] == first + rest[..k - |first|];
      LaterCohort(w, block, cohorts, c', b, rest[..k - |first|]);
    }
  }

  /** Everything listed before the place is among the batches. */
  ghost predicate ComeBefore(w: World, block: string, cohorts: seq<string>, c: nat, b: nat, batches: seq<Batch>) {
    forall c0: nat, b0: nat :: Earlier(c0, b0, c, b) && InLists(w, Some(block), cohorts, c0, b0) ==>
      w.batchesOf[cohorts[c0]][b0] in batches
  }

  lemma LaterCohort(w: World, block: string, cohorts: seq<string>, c: nat, b: nat, batches: seq<Batch>)
    requires cohorts != [] && ComeBefore(w, block, cohorts[1..], c, b, batches)
    ensures ComeBefore(w, block, cohorts, c + 1, b, w.Matching(cohorts[0], block) + batches)
  {
    forall c0: nat, b0: nat | Earlier(c0, b0, c + 1, b) && InLists(w, Some(block), cohorts, c0, b0)
      ensures w.batchesOf[cohorts[c0]][b0] in w.Matching(cohorts[0], block) + batches
    {
      if c0 == 0 {
        InBlockHas(w.batchesOf[cohorts[0]], block, b0);
      } else {
        assert InLists(w, Some(block), cohorts[1..], c0 - 1, b0) && Earlier(c0 - 1, b0, c, b);
      }
    }
  }

  /** Every place holds a candidate. */
  lemma PlaceIsCandidate(w: World, u: User, c: nat, b: nat)
    requires IsPlace(w, u, c, b)
    ensures BatchAt(w, u, c, b) in Candidates(w, u)
  {
    FlatHas(w, u.block.value, w.Cohorts(u.district.value), c, b);
  }

  /** Every candidate stands at a place; what is earlier are earlier candidates. */
  lemma CandidateIsPlace(w: World, u: User, k: nat) returns (c: nat, b: nat)
    requires k < |Candidates(w, u)|
    ensures IsPlace(w, u, c, b) && BatchAt(w, u, c, b) == Candidates(w, u)[k]
    ensures forall c0: nat, b0: nat :: IsPlace(w, u, c0, b0) && Earlier(c0, b0, c, b) ==>
      BatchAt(w, u, c0, b0) in Candidates(w, u)[..k]
  {
    c, b := FlatAt(w, u.block.value, w.Cohorts(u.district.value), k);
  }

  // ---------------------------------------------------------------- whatever fails

  /** However the calls end, no batch that starts with at most a hundred active members exceeds a hundred. */
  lemma CapacityHolds(w: World, s: State, users: seq<User>, cohortId: string, yearId: string)
    requires |ActiveRows(s.members, cohortId, yearId)| <= 100
    ensures |ActiveRows(Run(w, s, users).members, cohortId, yearId)| <= 100
  {
    RunKeeps(w, s, users);
    CountIs(s.members, cohortId, yearId);
    CountIs(Run(w, s, users).members, cohortId, yearId);
  }

  ghost predicate HasPlaceFor(w: World, users: seq<User>, m: Member) {
    exists u, c: nat, b: nat :: u in users && IsPlace(w, u, c, b) && PutsInto(w, u, BatchAt(w, u, c, b), m)
  }

  /**
   However the calls end, every row the run adds puts a listed user into a batch that is listed for a
   cohort listed for the user's district, and that names the user's block.
   */
  lemma OnlyMatchingBatches(w: World, s: State, users: seq<User>)
    ensures var after := Run(w, s, users).members;
      s.members <= after && forall i :: |s.members| <= i < |after| ==> HasPlaceFor(w, users, after[i])
  {
    var after := Run(w, s, users).members;
    assert users[..|users|] == users;
    OnlyCandidates(w, s, users, |users|);
    forall i | |s.members| <= i < |after| ensures HasPlaceFor(w, users, after[i]) {
      var u :| u in users && IsRowFor(w, u, Candidates(w, u), after[i]);
      RowHasPlace(w, u, after[i]);
    }
  }

  lemma RowHasPlace(w: World, u: User, m: Member)
    requires IsRowFor(w, u, Candidates(w, u), m)
    ensures exists c: nat, b: nat :: IsPlace(w, u, c, b) && PutsInto(w, u, BatchAt(w, u, c, b), m)
  {
    var x :| x in Candidates(w, u) && x.cohortId in w.yearOf && m == Row(u, x, w.yearOf[x.cohortId]);
    var k :| 0 <= k < |Candidates(w, u)| && Candidates(w, u)[k] == x;
    var c, b := CandidateIsPlace(w, u, k);
    assert PutsInto(w, u, BatchAt(w, u, c, b), m);
  }

  /** The user has got a row at the place since. */
  predicate GotAt(w: World, u: User, c: nat, b: nat, before: seq<Member>, after: seq<Member>) {
    && IsPlace(w, u, c, b) && |before| <= |after|
    && exists m :: m in after[|before|..] && PutsInto(w, u, BatchAt(w, u, c, b), m)
  }

  lemma GotIsAt(w: World, u: User, c: nat, b: nat, before: seq<Member>, after: seq<Member>)
    requires IsPlace(w, u, c, b) && Got(w, u, BatchAt(w, u, c, b), before, after) && |before| <= |after|
    ensures GotAt(w, u, c, b, before, after)
  {
    var x := BatchAt(w, u, c, b);
    var n :| |before| <= n < |after| && after[n] == Row(u, x, w.yearOf[x.cohortId]);
    assert after[|before|..][n - |before|] == after[n];
    assert PutsInto(w, u, x, after[n]);
  }

  predicate SitsAt(w: World, u: User, c: nat, b: nat, members: seq<Member>) {
    IsPlace(w, u, c, b) && SitsIn(w, members, u, BatchAt(w, u, c, b))
  }

  /**
   However the calls end, what a user was counted as is so when the run is over: an assigned user has
   a new row at one of the user's places and an active mapping, and one counted as a member already has a row.
   */
  lemma CountedAsItIs(w: World, s: State, users: seq<User>, i: nat)
    requires i < |users|
    ensures var r := Run(w, s, users); var u := users[i];
      && (EndOf(w, s, users, i) == Placed ==>
            u.userId in r.activated && exists c: nat, b: nat :: GotAt(w, u, c, b, s.members, r.members))
      && (EndOf(w, s, users, i) == Already ==> exists c: nat, b: nat :: SitsAt(w, u, c, b, r.members))
  {
    var r, u := Run(w, s, users), users[i];
    CountedHolds(w, s, users, i);
    if EndOf(w, s, users, i) == Placed {
      var x :| x in Candidates(w, u) && Got(w, u, x, s.members, r.members);
      var k :| 0 <= k < |Candidates(w, u)| && Candidates(w, u)[k] == x;
      var c, b := CandidateIsPlace(w, u, k);
      OnlyMatchingBatches(w, s, users);
      GotIsAt(w, u, c, b, s.members, r.members);
    }
    if EndOf(w, s, users, i) == Already {
      var x :| x in Candidates(w, u) && IsMember(w, r.members, u, x);
      var k :| 0 <= k < |Candidates(w, u)| && Candidates(w, u)[k] == x;
      var c, b := CandidateIsPlace(w, u, k);
      assert SitsAt(w, u, c, b, r.members);
    }
  }

  predicate IsTry(u: User, batches: seq<Batch>, e: Failure) {
    exists b :: b in batches && e == InBatch(u.userId, b.cohortId)
  }

  /** Errors are only added, each for a try at one of the batches. */
  ghost predicate AddsTries(u: User, batches: seq<Batch>, before: seq<Failure>, after: seq<Failure>) {
    before <= after && forall i :: |before| <= i < |after| ==> IsTry(u, batches, after[i])
  }

  lemma TriesThen(u: User, a: seq<Batch>, b: seq<Batch>, first: seq<Failure>, before: seq<Failure>,
                  after: seq<Failure>)
    requires AddsTries(u, a, first, before) && AddsTries(u, b, before, after)
    ensures AddsTries(u, a + b, first, after)
  {
    forall i | |first| <= i < |after| ensures IsTry(u, a + b, after[i]) {
      if i < |before| {
        assert IsTry(u, a, before[i]);
      }
    }
  }

  lemma TriedErrors(w: World, s: State, u: User, b: Batch)
    ensures AddsTries(u, [b], s.errors, Tried(w, s, u, b).state.errors)
  {
    assert b in [b];
  }

  lemma {:induction false} FilledErrors(w: World, s: State, u: User, batches: seq<Batch>)
    ensures AddsTries(u, batches, s.errors, Filled(w, s, u, batches).state.errors)
    decreases |batches|
  {
    if batches != [] {
      var r := Tried(w, s, u, batches[0]);
      var end := Filled(w, s, u, batches).state.errors;
      TriedErrors(w, s, u, batches[0]);
      if r.end == Next {
        FilledErrors(w, r.state, u, batches[1..]);
      }
      TriesThen(u, [batches[0]], batches[1..], s.errors, r.state.errors, end);
      assert batches == [batches[0]] + batches[1..];
    }
  }

  lemma {:induction false} VisitedErrors(w: World, s: State, u: User, block: string, cohorts: seq<string>)
    ensures AddsTries(u, Flat(w, block, cohorts), s.errors, Visited(w, s, u, block, cohorts).state.errors)
    decreases |cohorts|
  {
    if cohorts != [] && !w.Throws(FindBatches, s.clock) {
      var batches := w.Matching(cohorts[0], block);
      var r := Filled(w, s.Tick(), u, batches);
      FilledErrors(w, s.Tick(), u, batches);
      if r.end == Next {
        VisitedErrors(w, r.state, u, block, cohorts[1..]);
      }
      TriesThen(u, batches, Flat(w, block, cohorts[1..]), s.errors, r.state.errors,
                Visited(w, s, u, block, cohorts).state.errors);
    }
  }

  /** The failure of a try at one of the user's places. */
  ghost predicate IsTryAtPlace(w: World, u: User, e: Failure) {
    exists c: nat, b: nat :: IsPlace(w, u, c, b) && e == InBatch(u.userId, BatchAt(w, u, c, b).cohortId)
  }

  lemma TryIsAtPlace(w: World, u: User, e: Failure)
    requires IsTry(u, Candidates(w, u), e)
    ensures IsTryAtPlace(w, u, e)
  {
    var x :| x in Candidates(w, u) && e == InBatch(u.userId, x.cohortId);
    var k :| 0 <= k < |Candidates(w, u)| && Candidates(w, u)[k] == x;
    var c, b := CandidateIsPlace(w, u, k);
  }

  /**
   What a user's turn adds to the errors: one for each failed try at a place of the user, and one more if
   the turn itself failed.
   */
  lemma TurnErrors(w: World, s: State, u: User) returns (tries: seq<Failure>)
    ensures var r := Handled(w, s, u);
      r.state.errors == s.errors + tries + if r.end == Threw then [InUser(u.userId)] else []
    ensures forall e :: e in tries ==> IsTryAtPlace(w, u, e)
  {
    tries := [];
    if u.mode == Some("remote") && u.district != None && u.block != None && !w.Throws(FindCohorts, s.clock) {
      var r := Visited(w, s.Tick(), u, u.block.value, w.Cohorts(u.district.value));
      VisitedErrors(w, s.Tick(), u, u.block.value, w.Cohorts(u.district.value));
      tries := r.state.errors[|s.errors|..];
      forall e | e in tries ensures IsTryAtPlace(w, u, e) {
        var i :| 0 <= i < |tries| && tries[i] == e;
        assert IsTry(u, Candidates(w, u), r.state.errors[|s.errors| + i]);
        TryIsAtPlace(w, u, e);
      }
    }
  }

  // ---------------------------------------------------------------- when nothing fails

  /** All the user's places are full. */
  ghost predicate AllFull(w: World, u: User, members: seq<Member>) {
    forall c: nat, b: nat :: IsPlace(w, u, c, b) ==> NoRoom(w, members, BatchAt(w, u, c, b))
  }

  /** The place had room when the user's turn came, and all earlier ones are full when the run is over. */
  ghost predicate FirstWithRoom(w: World, u: User, c: nat, b: nat, before: seq<Member>, final: seq<Member>) {
    && IsPlace(w, u, c, b) && !NoRoom(w, before, BatchAt(w, u, c, b))
    && forall c0: nat, b0: nat :: IsPlace(w, u, c0, b0) && Earlier(c0, b0, c, b) ==>
         NoRoom(w, final, BatchAt(w, u, c0, b0))
  }

  /** The first-fit promise: `before` are the rows when the user's turn comes, `final` those of the end. */
  ghost predicate Promised(w: World, u: User, end: End, before: seq<Member>, final: seq<Member>) {
    match end
    case Next => AllFull(w, u, final)
    case Placed => exists c: nat, b: nat ::
      && FirstWithRoom(w, u, c, b, before, final)
      && |before| < |final| && PutsInto(w, u, BatchAt(w, u, c, b), final[|before|])
    case Already => exists c: nat, b: nat ::
      FirstWithRoom(w, u, c, b, before, final) && SitsIn(w, before, u, BatchAt(w, u, c, b))
    case Threw => false
  }

  lemma ServedIsPromised(w: World, u: User, end: End, before: seq<Member>, final: seq<Member>)
    requires Served(w, u, end, before, final)
    ensures Promised(w, u, end, before, final)
  {
    var batches := Candidates(w, u);
    match end
    case Next =>
      forall c: nat, b: nat | IsPlace(w, u, c, b) ensures NoRoom(w, final, BatchAt(w, u, c, b)) {
        PlaceIsCandidate(w, u, c, b);
        var k :| 0 <= k < |batches| && batches[k] == BatchAt(w, u, c, b);
        FullIs(w, final, batches[k]);
      }
    case Placed =>
      var j :| 0 <= j < |batches| && IsPlaced(w, u, batches, j, before, final);
      var c, b := FirstAt(w, u, j, before, final);
    case Already =>
      var j :| 0 <= j < |batches| && FullUpTo(w, final, batches, j) && !Full(w, before, batches[j])
        && IsMember(w, before, u, batches[j]);
      var c, b := FirstAt(w, u, j, before, final);
      assert SitsIn(w, before, u, batches[j]);
    case Threw =>
  }

  lemma FirstAt(w: World, u: User, j: nat, before: seq<Member>, final: seq<Member>) returns (c: nat, b: nat)
    requires j < |Candidates(w, u)| && FullUpTo(w, final, Candidates(w, u), j)
    requires !Full(w, before, Candidates(w, u)[j])
    ensures FirstWithRoom(w, u, c, b, before, final) && BatchAt(w, u, c, b) == Candidates(w, u)[j]
  {
    c, b := CandidateIsPlace(w, u, j);
    FullIs(w, before, Candidates(w, u)[j]);
    forall c0: nat, b0: nat | IsPlace(w, u, c0, b0) && Earlier(c0, b0, c, b)
      ensures NoRoom(w, final, BatchAt(w, u, c0, b0))
    {
      var k :| 0 <= k < j && Candidates(w, u)[..j][k] == BatchAt(w, u, c0, b0);
      FullIs(w, final, Candidates(w, u)[k]);
    }
  }

  /**
   When no call fails: for a user counted as "no available batch" all places are full when the run is
   over, and a placed user went to the first place with room, all earlier ones being full.
   */
  lemma FirstFitIsComplete(w: World, s: State, users: seq<User>, i: nat)
    requires Quiet(w) && i < |users|
    ensures Promised(w, users[i], EndOf(w, s, users, i), Run(w, s, users[..i]).members, Run(w, s, users).members)
  {
    FirstFitHolds(w, s, users, i);
    ServedIsPromised(w, users[i], EndOf(w, s, users, i), Run(w, s, users[..i]).members, Run(w, s, users).members);
  }

  /** A run that reports no error kept that promise, whatever the calls were to do. */
  lemma SilentRunIsFirstFit(w: World, s: State, users: seq<User>, i: nat)
    requires i < |users| && Run(w, s, users).errors == s.errors
    ensures Promised(w, users[i], EndOf(w, s, users, i), Run(w, s, users[..i]).members, Run(w, s, users).members)
  {
    SilentRunHolds(w, s, users, i);
    ServedIsPromised(w, users[i], EndOf(w, s, users, i), Run(w, s, users[..i]).members, Run(w, s, users).members);
  }
}
