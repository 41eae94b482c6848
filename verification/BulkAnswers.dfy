/**
 What a bulk membership request answers: the results and the errors are, in order, what its steps came to,
 one entry for each, told from the rows before and after the step.
 */
module BulkAnswers {
  import opened BulkMembers
  import opened CohortMember
  import opened JsValues

  datatype Step =
    | Unknown(userId: string)
    | Take(userId: string, cohortId: string)
    | Give(userId: string, cohortId: string)

  datatype Entry = Did(answer: Answer) | Failed(failure: Failure)

  function TakesFor(userId: string, cohorts: seq<string>): seq<Step> {
    seq(|cohorts|, i requires 0 <= i < |cohorts| => Take(userId, cohorts[i]))
  }

  function GivesFor(userId: string, cohorts: seq<string>): seq<Step> {
    seq(|cohorts|, i requires 0 <= i < |cohorts| => Give(userId, cohorts[i]))
  }

  /** For each user in turn the cohorts to take away and then those to give, or one step for an unknown user. */
  function StepsOf(w: World, q: Request, users: seq<string>): seq<Step> {
    if users == [] then []
    else
      var n := |users| - 1;
      StepsOf(w, q, users[..n])
      + if users[n] in w.known then TakesFor(users[n], q.removes) + GivesFor(users[n], q.adds) else [Unknown(users[n])]
  }

  function SeatOf(w: World, userId: string, cohortId: string): Seat
    requires w.YearOf(cohortId).Some?
  {
    Seat(userId, cohortId, w.YearOf(cohortId).value)
  }

  /**
   The entry of a step. A cohort without a mapping to the year is reported; taking tells whether there was
   a row to take; giving tells the row that is there afterwards. A step may fail only if calls may.
   */
  predicate Fits(w: World, q: Request, mayFail: bool, step: Step, before: seq<Member>, after: seq<Member>,
                 entry: Entry) {
    match step
    case Unknown(u) => entry == Failed(UserNotExist(u)) && after == before
    case Take(u, c) =>
      || (mayFail && entry == Failed(UpdateFailed(u, c)))
      || (entry == if w.YearOf(c) == None then Failed(CohortNotFound(c))
                   else if HasRow(before, SeatOf(w, u, c)) then Did(StatusUpdated(c, u)) else Did(NotMapped(c, u)))
    case Give(u, c) =>
      || (mayFail && entry == Failed(SaveFailed(u, c)))
      || (w.YearOf(c) == None && entry == Failed(CohortNotFound(c)))
      || (w.YearOf(c).Some? && entry.Did? && entry.answer.Saved?
          && entry.answer.row.seat == SeatOf(w, u, c) && entry.answer.row.updatedBy == q.login
          && View(after, SeatOf(w, u, c)) == Some(entry.answer.row))
  }

  function ResultsOf(log: seq<Entry>): seq<Answer> {
    if log == [] then []
    else
      var n := |log| - 1;
      ResultsOf(log[..n]) + if log[n].Did? then [log[n].answer] else []
  }

  function ErrorsOf(log: seq<Entry>): seq<Failure> {
    if log == [] then []
    else
      var n := |log| - 1;
      ErrorsOf(log[..n]) + if log[n].Failed? then [log[n].failure] else []
  }

  /** The entry tells of a change to a row of the user. */
  predicate Touches(entry: Entry, userId: string) {
    && entry.Did?
    && match entry.answer
       case NotMapped(_, _) => false
       case StatusUpdated(_, u) => u == userId
       case Saved(row) => row.seat.userId == userId
  }

  predicate FitsAt(w: World, q: Request, mayFail: bool, steps: seq<Step>, rows: seq<seq<Member>>, log: seq<Entry>,
                   i: nat)
    requires i < |steps| && |rows| == |steps| + 1 && |log| == |steps|
  {
    Fits(w, q, mayFail, steps[i], rows[i], rows[i + 1], log[i])
  }

  /** The steps lead from `s` to `r`: `rows` is the table before and after each, `log` the entries they leave. */
  ghost predicate Logged(w: World, q: Request, mayFail: bool, steps: seq<Step>, rows: seq<seq<Member>>,
                         log: seq<Entry>, s: State, r: State) {
    && |log| == |steps| && |rows| == |steps| + 1 && rows[0] == s.rows && rows[|steps|] == r.rows
    && (forall i: nat :: i < |steps| ==> FitsAt(w, q, mayFail, steps, rows, log, i))
    && r.results == s.results + ResultsOf(log) && r.errors == s.errors + ErrorsOf(log)
    && (forall u :: u in r.affected <==> u in s.affected || exists e :: e in log && Touches(e, u))
  }

  lemma NothingLogged(w: World, q: Request, mayFail: bool, s: State)
    ensures Logged(w, q, mayFail, [], [s.rows], [], s, s)
  {
  }

  /** One step more. */
  lemma LoggedStep(w: World, q: Request, mayFail: bool, steps: seq<Step>, rows: seq<seq<Member>>, log: seq<Entry>,
                   s: State, mid: State, step: Step, entry: Entry, r: State)
    requires Logged(w, q, mayFail, steps, rows, log, s, mid) && Fits(w, q, mayFail, step, mid.rows, r.rows, entry)
    requires r.results == mid.results + if entry.Did? then [entry.answer] else []
    requires r.errors == mid.errors + if entry.Failed? then [entry.failure] else []
    requires forall u :: u in r.affected <==> u in mid.affected || Touches(entry, u)
    ensures Logged(w, q, mayFail, steps + [step], rows + [r.rows], log + [entry], s, r)
  {
    var steps', rows', log' := steps + [step], rows + [r.rows], log + [entry];
    assert log'[..|log|] == log;
    forall i: nat | i < |steps'| ensures FitsAt(w, q, mayFail, steps', rows', log', i) {
      if i < |steps| {
        assert FitsAt(w, q, mayFail, steps, rows, log, i);
      }
    }
    forall u ensures u in r.affected <==> u in s.affected || exists e :: e in log' && Touches(e, u) {
      if u in mid.affected && u !in s.affected {
        var e :| e in log && Touches(e, u);
        assert e in log';
      }
      assert entry in log';
    }
  }

  function EntryOfRemove(w: World, s: State, userId: string, cohort: string): Entry {
    if w.Throws(FindYears, s.clock) then Failed(UpdateFailed(userId, cohort))
    else if w.YearOf(cohort) == None then Failed(CohortNotFound(cohort))
    else if w.Throws(UpdateRows, s.clock + 1) then Failed(UpdateFailed(userId, cohort))
    else if HasRow(s.rows, SeatOf(w, userId, cohort)) then Did(StatusUpdated(cohort, userId))
    else Did(NotMapped(cohort, userId))
  }

  function EntryOfAdd(w: World, q: Request, s: State, userId: string, cohort: string): Entry {
    if w.Throws(FindYears, s.clock) then Failed(SaveFailed(userId, cohort))
    else if w.YearOf(cohort) == None then Failed(CohortNotFound(cohort))
    else if w.Throws(FindMapping, s.clock + 1) || w.Throws(SaveRow, s.clock + 2) then Failed(SaveFailed(userId, cohort))
    else Did(Saved(NewRow(q, View(s.rows, SeatOf(w, userId, cohort)), SeatOf(w, userId, cohort))))
  }

  lemma RemoveFits(w: World, q: Request, s: State, userId: string, cohort: string)
    ensures var entry, r := EntryOfRemove(w, s, userId, cohort), Removed(w, q, s, userId, cohort);
      && Fits(w, q, !Quiet(w), Take(userId, cohort), s.rows, r.rows, entry)
      && r.results == s.results + (if entry.Did? then [entry.answer] else [])
      && r.errors == s.errors + (if entry.Failed? then [entry.failure] else [])
      && (forall u :: u in r.affected <==> u in s.affected || Touches(entry, u))
  {
  }

  lemma AddFits(w: World, q: Request, s: State, userId: string, cohort: string)
    ensures var entry, r := EntryOfAdd(w, q, s, userId, cohort), Added(w, q, s, userId, cohort);
      && Fits(w, q, !Quiet(w), Give(userId, cohort), s.rows, r.rows, entry)
      && r.results == s.results + (if entry.Did? then [entry.answer] else [])
      && r.errors == s.errors + (if entry.Failed? then [entry.failure] else [])
      && (forall u :: u in r.affected <==> u in s.affected || Touches(entry, u))
  {
    if w.YearOf(cohort).Some? {
      var k := SeatOf(w, userId, cohort);
      StoredView(q, s.rows, k, k);
    }
  }

  lemma {:induction false} RemovesAreLogged(w: World, q: Request, steps: seq<Step>, rows: seq<seq<Member>>,
                                            log: seq<Entry>, s: State, mid: State, userId: string,
                                            cohorts: seq<string>)
    returns (rows': seq<seq<Member>>, log': seq<Entry>)
    requires Logged(w, q, !Quiet(w), steps, rows, log, s, mid)
    ensures Logged(w, q, !Quiet(w), steps + TakesFor(userId, cohorts), rows', log', s,
                   RemovedAll(w, q, mid, userId, cohorts))
    decreases |cohorts|
  {
    rows', log' := rows, log;
    if cohorts == [] {
      assert steps + TakesFor(userId, cohorts) == steps;
    } else {
      var n := |cohorts| - 1;
      rows', log' := RemovesAreLogged(w, q, steps, rows, log, s, mid, userId, cohorts[..n]);
      var last := RemovedAll(w, q, mid, userId, cohorts[..n]);
      var r, entry := Removed(w, q, last, userId, cohorts[n]), EntryOfRemove(w, last, userId, cohorts[n]);
      RemoveFits(w, q, last, userId, cohorts[n]);
      LoggedStep(w, q, !Quiet(w), steps + TakesFor(userId, cohorts[..n]), rows', log', s, last,
                 Take(userId, cohorts[n]), entry, r);
      assert steps + TakesFor(userId, cohorts) == steps + TakesFor(userId, cohorts[..n]) + [Take(userId, cohorts[n])];
      rows', log' := rows' + [r.rows], log' + [entry];
    }
  }

  lemma {:induction false} AddsAreLogged(w: World, q: Request, steps: seq<Step>, rows: seq<seq<Member>>,
                                         log: seq<Entry>, s: State, mid: State, userId: string, cohorts: seq<string>)
    returns (rows': seq<seq<Member>>, log': seq<Entry>)
    requires Logged(w, q, !Quiet(w), steps, rows, log, s, mid)
    ensures Logged(w, q, !Quiet(w), steps + GivesFor(userId, cohorts), rows', log', s,
                   AddedAll(w, q, mid, userId, cohorts))
    decreases |cohorts|
  {
    rows', log' := rows, log;
    if cohorts == [] {
      assert steps + GivesFor(userId, cohorts) == steps;
    } else {
      var n := |cohorts| - 1;
      rows', log' := AddsAreLogged(w, q, steps, rows, log, s, mid, userId, cohorts[..n]);
      var last := AddedAll(w, q, mid, userId, cohorts[..n]);
      var r, entry := Added(w, q, last, userId, cohorts[n]), EntryOfAdd(w, q, last, userId, cohorts[n]);
      AddFits(w, q, last, userId, cohorts[n]);
      LoggedStep(w, q, !Quiet(w), steps + GivesFor(userId, cohorts[..n]), rows', log', s, last,
                 Give(userId, cohorts[n]), entry, r);
      assert steps + GivesFor(userId, cohorts) == steps + GivesFor(userId, cohorts[..n]) + [Give(userId, cohorts[n])];
      rows', log' := rows' + [r.rows], log' + [entry];
    }
  }

  /**
   However the calls end, the results and errors of a request whose loop is not thrown out of are one entry
   for each step, in order, each as its step came to; with no failures among them when no call fails.
   */
  lemma {:induction false} EveryStepIsAnswered(w: World, q: Request, s: State, users: seq<string>)
    returns (rows: seq<seq<Member>>, log: seq<Entry>)
    requires !Run(w, q, s, users).thrown
    ensures Logged(w, q, !Quiet(w), StepsOf(w, q, users), rows, log, s, Run(w, q, s, users))
    ensures |ResultsOf(log)| + |ErrorsOf(log)| == |StepsOf(w, q, users)|
  {
    if users == [] {
      rows, log := [s.rows], [];
      NothingLogged(w, q, !Quiet(w), s);
    } else {
      var n := |users| - 1;
      var u, before := users[n], StepsOf(w, q, users[..n]);
      var mid := Run(w, q, s, users[..n]);
      rows, log := EveryStepIsAnswered(w, q, s, users[..n]);
      if u in w.known {
        TickIsNoStep(w, q, !Quiet(w), before, rows, log, s, mid);
        rows, log := RemovesAreLogged(w, q, before, rows, log, s, mid.Tick(), u, q.removes);
        rows, log := AddsAreLogged(w, q, before + TakesFor(u, q.removes), rows, log, s,
                                   RemovedAll(w, q, mid.Tick(), u, q.removes), u, q.adds);
        assert StepsOf(w, q, users) == before + TakesFor(u, q.removes) + GivesFor(u, q.adds);
      } else {
        LoggedStep(w, q, !Quiet(w), before, rows, log, s, mid, Unknown(u), Failed(UserNotExist(u)),
                   Run(w, q, s, users));
        rows, log := rows + [Run(w, q, s, users).rows], log + [Failed(UserNotExist(u))];
      }
    }
    OneEach(log);
  }

  lemma {:induction false} OneEach(log: seq<Entry>)
    ensures |ResultsOf(log)| + |ErrorsOf(log)| == |log|
  {
    if log != [] {
      OneEach(log[..|log| - 1]);
    }
  }

  lemma TickIsNoStep(w: World, q: Request, mayFail: bool, steps: seq<Step>, rows: seq<seq<Member>>, log: seq<Entry>,
                     s: State, mid: State)
    requires Logged(w, q, mayFail, steps, rows, log, s, mid)
    ensures Logged(w, q, mayFail, steps, rows, log, s, mid.Tick())
  {
  }
}
