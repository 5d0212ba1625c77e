/** Which days the official usage sync asks for, and what it keeps of the answers. */
module DailySync {
  import opened Common

  const WINDOW_DAYS: int := 7
  const BACKFILL_DAYS: int := 84

  /** The sync state of an account: its row's `backfilled` flag, if there is a row, and the days synced so far. */
  datatype State = State(row: Option<bool>, synced: set<int>)

  /**
   `ok`: the usage was fetched and stored; `read`: the sync row could be read; `saved`: its update reached the
   database.
   */
  datatype Action =
    | Job(today: int, ok: bool, read: bool, saved: bool)      // the hourly job
    | Manual(today: int, days: int, ok: bool, saved: bool)    // a sync requested in the panel

  function Clamp(days: int): int {
    if days < 1 then 1 else if days > BACKFILL_DAYS then BACKFILL_DAYS else days
  }

  predicate Backfilled(s: State) {
    s.row == Some(true)
  }

  /** How many days an action asks for. */
  function DaysAsked(s: State, a: Action): int {
    match a
    case Job(_, _, read, _) => if read && Backfilled(s) then WINDOW_DAYS else BACKFILL_DAYS
    case Manual(_, days, _, _) => Clamp(days)
  }

  predicate Between(from: int, d: int, until: int) {
    from <= d <= until
  }

  function Days(from: int, until: int): set<int> {
    set d | from <= d <= until && Between(from, d, until)
  }

  function Asked(s: State, a: Action): set<int> {
    Days(a.today - DaysAsked(s, a) + 1, a.today)
  }

  /** `set_daily_sync`: the flag is only ever raised. */
  function Flag(s: State, ok: bool): Option<bool> {
    Some(Backfilled(s) || ok)
  }

  function Step(s: State, a: Action): State {
    State(if a.saved then Flag(s, a.ok && (a.Job? || DaysAsked(s, a) >= BACKFILL_DAYS)) else s.row,
          if a.ok then s.synced + Asked(s, a) else s.synced)
  }

  function Run(s: State, actions: seq<Action>): State
    decreases |actions|
  {
    if actions == [] then s else Run(Step(s, actions[0]), actions[1..])
  }

  const Never: State := State(None, {})

  /** All days from `from` to `until` were part of a successful sync. */
  ghost predicate Covers(s: State, from: int, until: int) {
    forall d :: from <= d <= until ==> d in s.synced
  }

  /** One sync of 84 days succeeds and is recorded. */
  predicate DeepSync(s: State, a: Action) {
    a.ok && a.saved && DaysAsked(s, a) == BACKFILL_DAYS
  }

  /** The flag is true if and only if one sync of 84 days, all in one, has succeeded and was recorded. */
  lemma {:induction false} BackfilledIffDeepSync(s: State, actions: seq<Action>)
    ensures Backfilled(Run(s, actions))
            <==> Backfilled(s) || exists i :: 0 <= i < |actions| && DeepSync(Run(s, actions[..i]), actions[i])
    decreases |actions|
  {
    if actions != [] {
      var t, rest := Step(s, actions[0]), actions[1..];
      BackfilledIffDeepSync(t, rest);
      assert actions[..0] == [];
      forall i | 0 <= i < |rest|
        ensures DeepSync(Run(t, rest[..i]), rest[i]) <==> DeepSync(Run(s, actions[..i + 1]), actions[i + 1])
      {
        assert actions[..i + 1][1..] == rest[..i];
      }
      if i :| 0 <= i < |actions| && DeepSync(Run(s, actions[..i]), actions[i]) {
        assert i > 0 ==> DeepSync(Run(t, rest[..i - 1]), rest[i - 1]);
      }
      if i :| 0 <= i < |rest| && DeepSync(Run(t, rest[..i]), rest[i]) {
        assert DeepSync(Run(s, actions[..i + 1]), actions[i + 1]);
      }
    }
  }

  lemma {:induction false} SyncedStays(s: State, actions: seq<Action>)
    ensures s.synced <= Run(s, actions).synced
    decreases |actions|
  {
    if actions != [] {
      SyncedStays(Step(s, actions[0]), actions[1..]);
    }
  }

  lemma {:induction false} RunAppend(s: State, first: seq<Action>, rest: seq<Action>)
    ensures Run(s, first + rest) == Run(Run(s, first), rest)
    decreases |first|
  {
    if first == [] {
      assert first + rest == rest;
    } else {
      assert (first + rest)[1..] == first[1..] + rest;
      RunAppend(Step(s, first[0]), first[1..], rest);
    }
  }

  /** What one successful sync asked for stays synced. */
  lemma SuccessIsKept(s: State, actions: seq<Action>, i: nat)
    requires i < |actions| && actions[i].ok
    ensures Asked(Run(s, actions[..i]), actions[i]) <= Run(s, actions).synced
  {
    var before := Run(s, actions[..i]);
    assert actions == actions[..i] + actions[i..];
    RunAppend(s, actions[..i], actions[i..]);
    SyncedStays(Step(before, actions[i]), actions[i..][1..]);
  }

  /** So a flag that is true vouches for 84 days in a row, asked for in one sync. */
  lemma BackfilledVouches(actions: seq<Action>)
    requires Backfilled(Run(Never, actions))
    ensures exists i :: 0 <= i < |actions| && DeepSync(Run(Never, actions[..i]), actions[i])
                        && Covers(Run(Never, actions), actions[i].today - (BACKFILL_DAYS - 1), actions[i].today)
  {
    BackfilledIffDeepSync(Never, actions);
    var i :| 0 <= i < |actions| && DeepSync(Run(Never, actions[..i]), actions[i]);
    SuccessIsKept(Never, actions, i);
    assert Asked(Run(Never, actions[..i]), actions[i])
           == Days(actions[i].today - (BACKFILL_DAYS - 1), actions[i].today);
  }

  // ----- what is covered -----

  /** The days of these syncs never go back. */
  ghost predicate Forward(last: int, actions: seq<Action>)
    decreases |actions|
  {
    actions != [] ==> actions[0].today >= last && Forward(actions[0].today, actions[1..])
  }

  /** The day up to which nothing is missing: a sync that reaches back to it moves it on to its own day. */
  function Frontier(s: State, covered: int, actions: seq<Action>): int
    decreases |actions|
  {
    if actions == [] then covered
    else
      var a := actions[0];
      Frontier(Step(s, a), if a.ok && a.today - DaysAsked(s, a) <= covered then a.today else covered, actions[1..])
  }

  /**
   Whatever jobs and manual syncs follow, successful or not: exactly the days up to the frontier are covered without
   a gap, so everything up to the last success is if and only if every gap was reached back over in time.
   */
  lemma {:induction false} CoverageIffNoGapIsLeft(s: State, from: int, covered: int, last: int, actions: seq<Action>)
    requires Covers(s, from, covered) && from <= covered <= last && covered + 1 !in s.synced
    requires (forall d :: d in s.synced ==> d <= last) && Forward(last, actions)
    ensures var t, reached := Run(s, actions), Frontier(s, covered, actions);
            && Covers(t, from, reached) && reached + 1 !in t.synced && from <= reached <= LastDay(last, actions)
            && (Covers(t, from, LastDay(last, actions)) <==> reached == LastDay(last, actions))
    decreases |actions|
  {
    if actions != [] {
      var a, t := actions[0], Step(s, actions[0]);
      if !a.ok {
        ForwardFrom(a.today, last, actions[1..]);
        CoverageIffNoGapIsLeft(t, from, covered, last, actions[1..]);
      } else {
        var next := if a.today - DaysAsked(s, a) <= covered then a.today else covered;
        CoverageIffNoGapIsLeft(t, from, next, a.today, actions[1..]);
      }
    }
  }

  lemma {:induction false} ForwardFrom(last: int, earlier: int, actions: seq<Action>)
    requires Forward(last, actions) && earlier <= last
    ensures Forward(earlier, actions)
  {
  }

  // ----- coverage of the rolling window -----

  /** The hourly jobs of a backfilled account: they can read its sync row, and the day never goes back. */
  ghost predicate Hourly(last: int, actions: seq<Action>)
    decreases |actions|
  {
    actions != [] ==>
      actions[0].Job? && actions[0].read && actions[0].today >= last && Hourly(actions[0].today, actions[1..])
  }

  /** The day of the last successful job. */
  function LastDay(last: int, actions: seq<Action>): int
    decreases |actions|
  {
    if actions == [] then last else LastDay(if actions[0].ok then actions[0].today else last, actions[1..])
  }

  /** Successful jobs are at most seven days apart. */
  predicate Steady(last: int, actions: seq<Action>)
    decreases |actions|
  {
    actions != [] ==>
      && (actions[0].ok ==> actions[0].today - last <= WINDOW_DAYS)
      && Steady(if actions[0].ok then actions[0].today else last, actions[1..])
  }

  lemma {:induction false} HourlyIsMonotone(last: int, earlier: int, actions: seq<Action>)
    requires Hourly(last, actions) && earlier <= last
    ensures Hourly(earlier, actions)
  {
  }

  /** A day that the rolling window has left behind is never synced again. */
  lemma {:induction false} GapsStay(s: State, last: int, missing: int, actions: seq<Action>)
    requires Backfilled(s) && Hourly(last, actions)
    requires missing !in s.synced && missing < last - WINDOW_DAYS + 1
    ensures missing !in Run(s, actions).synced
    ensures LastDay(last, actions) >= last
    decreases |actions|
  {
    if actions != [] {
      var a := actions[0];
      if !a.ok {
        HourlyIsMonotone(a.today, last, actions[1..]);
      }
      GapsStay(Step(s, a), if a.ok then a.today else last, missing, actions[1..]);
    }
  }

  /**
   After a backfill that covers `[from, last]`, the hourly jobs keep every day from `from` to the last success
   covered if and only if no two consecutive successes are more than seven days apart.
   */
  lemma {:induction false} CoverageIffSteady(s: State, from: int, last: int, actions: seq<Action>)
    requires Backfilled(s) && Covers(s, from, last) && from <= last
    requires forall d :: d in s.synced ==> d <= last
    requires Hourly(last, actions)
    ensures Covers(Run(s, actions), from, LastDay(last, actions)) <==> Steady(last, actions)
    decreases |actions|
  {
    if actions != [] {
      var a := actions[0];
      var t := Step(s, a);
      if !a.ok {
        HourlyIsMonotone(a.today, last, actions[1..]);
        CoverageIffSteady(t, from, last, actions[1..]);
      } else if a.today - last <= WINDOW_DAYS {
        CoverageIffSteady(t, from, a.today, actions[1..]);
      } else {
        GapsStay(t, a.today, last + 1, actions[1..]);
        assert from <= last + 1 <= LastDay(last, actions);
      }
    }
  }

  /** Every job asks for at least seven days, so while the successes are steady none of them leaves a gap. */
  lemma {:induction false} SteadyLeavesNoGap(s: State, last: int, actions: seq<Action>)
    requires (forall a :: a in actions ==> a.Job?) && Steady(last, actions)
    ensures Frontier(s, last, actions) == LastDay(last, actions)
    decreases |actions|
  {
    if actions != [] {
      assert actions[0] in actions;
      SteadyLeavesNoGap(Step(s, actions[0]), if actions[0].ok then actions[0].today else last, actions[1..]);
    }
  }

  /**
   From the first successful job on, recorded or not: 83 days back from it and everything since are covered, while the
   jobs stay steady, whether or not they can read or save the sync row.
   */
  lemma FirstSuccessCoversItsWindow(today: int, read: bool, saved: bool, actions: seq<Action>)
    requires (forall a :: a in actions ==> a.Job?) && Forward(today, actions) && Steady(today, actions)
    ensures Covers(Run(Step(Never, Job(today, true, read, saved)), actions), today - 83, LastDay(today, actions))
  {
    var s := Step(Never, Job(today, true, read, saved));
    SteadyLeavesNoGap(s, today, actions);
    CoverageIffNoGapIsLeft(s, today - 83, today, today, actions);
  }

  // ----- what an upsert keeps -----

  /** A stored day: totals are replaced, shares and surfaces survive an answer without them. */
  datatype Usage = Usage(totals: seq<int>, shares: seq<string>, surfaces: string, settled: bool)

  const NO_SURFACES := "{}"

  function Merge(stored: Usage, answer: Usage): Usage {
    answer.(shares := if answer.shares != [] then answer.shares else stored.shares,
            surfaces := if answer.surfaces != NO_SURFACES then answer.surfaces else stored.surfaces)
  }

  /** The last answer that had shares, looking back over all answers for a day. */
  function LastShares(answers: seq<Usage>): seq<string>
    requires answers != []
    decreases |answers|
  {
    var a := answers[|answers| - 1];
    if a.shares != [] || |answers| == 1 then a.shares else LastShares(answers[..|answers| - 1])
  }

  function LastSurfaces(answers: seq<Usage>): string
    requires answers != []
    decreases |answers|
  {
    var a := answers[|answers| - 1];
    if a.surfaces != NO_SURFACES || |answers| == 1 then a.surfaces else LastSurfaces(answers[..|answers| - 1])
  }

  /** The row shows the last totals, and the last shares and surfaces that were not empty. */
  predicate Summarises(row: Usage, answers: seq<Usage>)
    requires answers != []
  {
    && row.totals == answers[|answers| - 1].totals
    && row.settled == answers[|answers| - 1].settled
    && row.shares == LastShares(answers)
    && row.surfaces == LastSurfaces(answers)
  }

  lemma MergingSummarises(row: Usage, answers: seq<Usage>, u: Usage)
    requires answers != [] ==> Summarises(row, answers)
    ensures Summarises(if answers == [] then u else Merge(row, u), answers + [u])
  {
    assert (answers + [u])[..|answers|] == answers;
  }

  /** `account_daily_usage` and `account_daily_sync` of one account. */
  class Store {
    var rows: map<int, Usage>
    var sync: Option<bool>
    ghost var synced: set<int>
    ghost var answers: map<int, seq<Usage>>   // every answer ever stored for a day

    ghost function View(): State
      reads this
    {
      State(sync, synced)
    }

    /** A stored day shows the last totals, the last shares that were not empty, the last surfaces that were not. */
    ghost predicate Valid()
      reads this
    {
      && rows.Keys == answers.Keys
      && forall d :: d in rows ==> answers[d] != [] && Summarises(rows[d], answers[d])
    }

    constructor ()
      ensures Valid() && View() == Never && rows == map[]
    {
      rows, sync, synced, answers := map[], None, {}, map[];
    }

    /** `upsert_daily_usage`. */
    method Upsert(day: int, u: Usage)
      requires Valid()
      modifies `rows, `answers
      ensures Valid()
      ensures answers == old(answers)[day := (if day in old(answers) then old(answers)[day] else []) + [u]]
      ensures rows == old(rows)[day := if day in old(rows) then Merge(old(rows)[day], u) else u]
    {
      ghost var past := if day in answers then answers[day] else [];
      MergingSummarises(if day in rows then rows[day] else u, past, u);
      if day in rows {
        var merged := u;
        if u.shares == [] {
          merged := merged.(shares := rows[day].shares);
        }
        if u.surfaces == NO_SURFACES {
          merged := merged.(surfaces := rows[day].surfaces);
        }
        rows := rows[day := merged];
      } else {
        rows := rows[day := u];
      }
      answers := answers[day := past + [u]];
    }

    /**
     `sync_daily`: asks for `[start, end]` and stores a row per answered day.  A failed fetch stores nothing; when the
     database gives up at some row, the rows before it stay.
     */
    method SyncDaily(start: int, end: int, answer: Option<seq<(int, Usage)>>, breaks: Option<nat>) returns (ok: bool)
      requires Valid()
      modifies `rows, `answers, `synced
      ensures Valid() && ok == Succeeds(answer, breaks)
      ensures synced == if ok then old(synced) + Days(start, end) else old(synced)
      ensures answer.None? ==> rows == old(rows)
      ensures ok ==> forall i :: 0 <= i < |answer.value| ==> answer.value[i].0 in rows
    {
      if answer.None? {
        return false;
      }
      for n := 0 to |answer.value|
        invariant Valid() && synced == old(synced)
        invariant breaks.Some? ==> n <= breaks.value
        invariant forall i :: 0 <= i < n ==> answer.value[i].0 in rows
      {
        if breaks == Some(n) {
          return false;
        }
        Upsert(answer.value[n].0, answer.value[n].1);
      }
      synced := synced + Days(start, end);
      ok := true;
    }

    /** `set_daily_sync`; an update that does not reach the database is ignored by its callers. */
    method SetDailySync(ok: bool, saved: bool)
      modifies `sync
      ensures sync == if saved then Flag(old(View()), ok) else old(sync)
    {
      if saved {
        match sync {
          case None => sync := Some(ok);
          case Some(was) => sync := Some(was || ok);
        }
      }
    }

    /** `sync_daily_job`: a deep backfill until one has succeeded, the rolling window afterwards. */
    method SyncDailyJob(today: int, answer: Option<seq<(int, Usage)>>, breaks: Option<nat>, read: bool, saved: bool)
      requires Valid()
      modifies this
      ensures Valid() && View() == Step(old(View()), Job(today, Succeeds(answer, breaks), read, saved))
    {
      var state := if read then sync else None;
      var backfill := !state.GetOr(false);
      var days := if backfill then BACKFILL_DAYS else WINDOW_DAYS;
      var ok := SyncDaily(today - (days - 1), today, answer, breaks);
      SetDailySync(ok, saved);
    }

    /** The panel's sync of a chosen number of days. */
    method SyncOnDemand(today: int, days: int, answer: Option<seq<(int, Usage)>>, breaks: Option<nat>, saved: bool)
      requires Valid()
      modifies this
      ensures Valid() && View() == Step(old(View()), Manual(today, days, Succeeds(answer, breaks), saved))
    {
      var n := Clamp(days);
      var ok := SyncDaily(today - (n - 1), today, answer, breaks);
      SetDailySync(ok && n >= BACKFILL_DAYS, saved);
    }
  }

  /** The fetch answered, and the database took every row of the answer. */
  predicate Succeeds(answer: Option<seq<(int, Usage)>>, breaks: Option<nat>) {
    answer.Some? && (breaks.Some? ==> |answer.value| <= breaks.value)
  }
}
