/** Whom a step will write about, read off the state before it: so a caller can tell whether it is on time. */
module Addressees {
  import opened Positions
  import opened Tables
  import opened CastDiff
  import opened BookingLogs
  import opened SaveItem
  import opened ApplyChanges
  import opened CastSave
  import opened SetupChange
  import opened SelfService
  import opened Notices
  import opened NoticeSteps
  import opened Store
  import opened Invariant
  import opened Preservation
  import opened Runs

  predicate Names(ts: seq<Transition>, u: UserId) {
    LastKind(ts, u).Some?
  }

  /** Rows about a user are added exactly for the users named. */
  lemma {:induction false} LoggedNames(logs: seq<LogRow>, ts: seq<Transition>, slot: Slot, now: int, p: PerfId,
                                       u: UserId)
    ensures |About(Logged(logs, ts, slot, now), p, u)| >= |About(logs, p, u)|
    ensures Adds(logs, Logged(logs, ts, slot, now), p, u) <==> p == slot.perf && Names(ts, u)
  {
    var after := Logged(logs, ts, slot, now);
    if ts == [] {
      assert after == logs;
    } else {
      var init := ts[..|ts| - 1];
      LoggedNames(logs, init, slot, now, p, u);
      assert LogRows(ts, |logs|, slot, now)[..|init|] == LogRows(init, |logs|, slot, now);
      assert after[..|after| - 1] == Logged(logs, init, slot, now);
    }
  }

  // ---- saving a cast ------------------------------------------------------------------------

  /** Who stands on the last position when its turn comes: those no earlier change lists. */
  function Found(rows: seq<Booking>, changes: seq<Change>, p: PerfId): seq<CastEntry>
    requires changes != []
  {
    Entries(WithoutUsers(At(rows, Last(changes).slot), p, UsersIn(Init(changes), 0)))
  }

  /** The last change of the list writes about u, by the set-level verdict of the diff. */
  predicate LastJudges(rows: seq<Booking>, changes: seq<Change>, p: PerfId, u: UserId)
    requires changes != []
  {
    var c := Last(changes);
    Verdict(Ids(Found(rows, changes, p)), Ids(c.Cast()), c.quantity, Reference(c.quantity, c.oldQuantity), u).Some?
  }

  predicate SomeJudges(rows: seq<Booking>, changes: seq<Change>, p: PerfId, u: UserId) {
    changes != [] && (LastJudges(rows, changes, p, u) || SomeJudges(rows, Init(changes), p, u))
  }

  lemma {:induction false} Run1Writes(t: CastTables, c: Change, p: PerfId, now: int, q: PerfId, u: UserId)
    requires c.Fits(p) && UniqueBookings(t.bookings) && Ordered(t.bookings)
    ensures |About(Run1(t, c, now).logs, q, u)| >= |About(t.logs, q, u)|
    ensures Adds(t.logs, Run1(t, c, now).logs, q, u)
            <==> q == p && Verdict(Ids(CastOf(t.bookings, c.slot)), Ids(c.Cast()), c.quantity,
                                   Reference(c.quantity, c.oldQuantity), u).Some?
  {
    var prior := CastOf(t.bookings, c.slot);
    Run1IsRecast(t, c, now);
    CastIndex(t.bookings, c.slot, u);
    DiffVerdict(prior, c.Cast(), c.quantity, c.oldQuantity, u);
    LoggedNames(t.logs, Diff(prior, c.Cast(), c.quantity, c.oldQuantity), c.slot, now, q, u);
  }

  lemma {:induction false} LastWrites(t: CastTables, changes: seq<Change>, p: PerfId, now: int, q: PerfId, u: UserId)
    requires changes != [] && WellFormed(changes, p) && UniqueBookings(t.bookings) && Ordered(t.bookings)
    ensures var before := Run(t, Init(changes), now);
            && |About(Run(t, changes, now).logs, q, u)| >= |About(before.logs, q, u)|
            && (Adds(before.logs, Run(t, changes, now).logs, q, u)
                <==> q == p && LastJudges(t.bookings, changes, p, u))
  {
    var init, c := Init(changes), Last(changes);
    RunBookings(t, init, now);
    RunInvariants(t.bookings, init, p);
    Run1Writes(Run(t, init, now), c, p, now, q, u);
    StageCast(t.bookings, init, p, c.slot, u);
  }

  /** A list of changes writes about exactly the users some change of it judges. */
  lemma {:induction false} RunWrites(t: CastTables, changes: seq<Change>, p: PerfId, now: int, q: PerfId, u: UserId)
    requires WellFormed(changes, p) && UniqueBookings(t.bookings) && Ordered(t.bookings)
    ensures |About(Run(t, changes, now).logs, q, u)| >= |About(t.logs, q, u)|
    ensures Adds(t.logs, Run(t, changes, now).logs, q, u) <==> q == p && SomeJudges(t.bookings, changes, p, u)
  {
    if changes != [] {
      RunWrites(t, Init(changes), p, now, q, u);
      LastWrites(t, changes, p, now, q, u);
    }
  }

  // ---- changing the setup -------------------------------------------------------------------

  /** Some change of the setup has to log something about u, in the sense of SetupChange.Entitled. */
  predicate SomeEntitled(rows: seq<Booking>, changes: seq<Change>, u: UserId) {
    changes != [] && (Names(Entitled(rows, Last(changes)), u) || SomeEntitled(rows, Init(changes), u))
  }

  lemma {:induction false} SetupLogNames(logs: seq<LogRow>, rows: seq<Booking>, changes: seq<Change>, p: PerfId,
                                         now: int, q: PerfId, u: UserId)
    requires WellFormed(changes, p)
    ensures |About(SetupLog(logs, rows, changes, now), q, u)| >= |About(logs, q, u)|
    ensures Adds(logs, SetupLog(logs, rows, changes, now), q, u) <==> q == p && SomeEntitled(rows, changes, u)
  {
    if changes != [] {
      var init, c := Init(changes), Last(changes);
      SetupLogNames(logs, rows, init, p, now, q, u);
      LoggedNames(SetupLog(logs, rows, init, now), Entitled(rows, c), c.slot, now, q, u);
    }
  }

  // ---- any step -----------------------------------------------------------------------------

  /** The toggle gives up a booking. */
  predicate Cancels(st: State, p: PerfId, u: UserId, now: int) {
    && p in st.schedule && st.schedule[p] >= now && Qualified(st, p, u)
    && BookingOf(st.tables.bookings, p, u).Some?
  }

  /** Whom a step writes about, in terms of the state before it. */
  ghost predicate Writes(st: State, step: Step, now: int, p: PerfId, u: UserId) {
    var rows := st.tables.bookings;
    match step
    case SaveStep(q, payload, _) =>
      p == q && Succeeds(st, q, payload, now) && SomeJudges(rows, ChangesOf(st, q, payload), q, u)
    case UpdateStep(q, schedule, items, removed) =>
      && p == q && Updates(st, q, schedule, items, removed, now)
      && SomeEntitled(rows, UpdateChanges(st, q, items, removed), u)
    case ToggleStep(q, v) =>
      && p == q && Cancels(st, q, v, now)
      && Names(CancelTransitions(rows, st.quantities, BookingOf(rows, q, v).value), u)
    case _ => false
  }

  lemma {:induction false} SaveWrites(st: State, p: PerfId, payload: Payload, now: int, q: PerfId, u: UserId)
    requires Sound(st) && Succeeds(st, p, payload, now)
    ensures Adds(st.tables.logs, Run(st.tables, ChangesOf(st, p, payload), now).logs, q, u)
            <==> q == p && SomeJudges(st.tables.bookings, ChangesOf(st, p, payload), p, u)
  {
    SaveShape(st, p, payload);
    RunWrites(st.tables, ChangesOf(st, p, payload), p, now, q, u);
  }

  lemma {:induction false} UpdateWrites(st: State, p: PerfId, schedule: int, items: seq<SetupItem>,
                                        removed: seq<PositionKey>, now: int, q: PerfId, u: UserId)
    requires Sound(st) && st.now <= now && Updates(st, p, schedule, items, removed, now)
    ensures Adds(st.tables.logs, UpdatePerformance(st, p, schedule, items, removed, now).0.tables.logs, q, u)
            <==> q == p && SomeEntitled(st.tables.bookings, UpdateChanges(st, p, items, removed), u)
  {
    var changes := UpdateChanges(st, p, items, removed);
    UpdateKeeps(st, p, schedule, items, removed, now);
    UpdateLog(st, p, schedule, items, removed, now);
    UpdateApart(st, p, schedule, items, removed, now);
    AllWellFormed(st.tables.bookings, p, removed, NewSetup(st, p, items), st.quantities);
    SetupLogNames(st.tables.logs, st.tables.bookings, changes, p, now, q, u);
  }

  lemma {:induction false} CancelWrites(t: CastTables, qs: Quantities, b: Booking, now: int, q: PerfId, u: UserId)
    requires UniqueBookings(t.bookings) && Ordered(t.bookings) && b in t.bookings
    ensures Adds(t.logs, CancelBooking(t, qs, b.slot.perf, b.user, now).logs, q, u)
            <==> q == b.slot.perf && Names(CancelTransitions(t.bookings, qs, b), u)
  {
    CancelLog(t, qs, b, now);
    LoggedNames(t.logs, CancelTransitions(t.bookings, qs, b), b.slot, now, q, u);
  }

  lemma {:induction false} ToggleCancels(st: State, p: PerfId, v: UserId, now: int)
    ensures Toggle(st, p, v, now).0.tables
            == if Cancels(st, p, v, now) then CancelBooking(st.tables, st.quantities, p, v, now) else st.tables
  {
  }

  lemma {:induction false} ToggleWrites(st: State, p: PerfId, v: UserId, now: int, q: PerfId, u: UserId)
    requires Sound(st)
    ensures Adds(st.tables.logs, Toggle(st, p, v, now).0.tables.logs, q, u)
            <==> q == p && Cancels(st, p, v, now)
                 && Names(CancelTransitions(st.tables.bookings, st.quantities,
                                            BookingOf(st.tables.bookings, p, v).value), u)
  {
    ToggleCancels(st, p, v, now);
    if Cancels(st, p, v, now) {
      CancelWrites(st.tables, st.quantities, BookingOf(st.tables.bookings, p, v).value, now, q, u);
    }
  }

  /** A step adds rows about exactly the users Writes says. */
  lemma {:induction false} StepWrites(st: State, step: Step, now: int, p: PerfId, u: UserId)
    requires Sound(st) && Enabled(st, step, now)
    ensures Adds(st.tables.logs, Next(st, step, now).tables.logs, p, u) <==> Writes(st, step, now, p, u)
  {
    match step
    case SaveStep(q, payload, _) =>
      if Succeeds(st, q, payload, now) {
        SaveWrites(st, q, payload, now, p, u);
      }
    case UpdateStep(q, schedule, items, removed) =>
      if Updates(st, q, schedule, items, removed, now) {
        UpdateWrites(st, q, schedule, items, removed, now, p, u);
      }
    case ToggleStep(q, v) => ToggleWrites(st, q, v, now, p, u);
    case _ => QuietAdds(st, step, now, p, u);
  }

  /**
    A step is on time exactly if those it will write about were told everything before now: one can tell beforehand.
  */
  lemma {:induction false} OnTimeExact(st: State, step: Step, now: int)
    requires Sound(st) && Enabled(st, step, now)
    ensures OnTime(st, step, now)
            <==> forall p, u :: Writes(st, step, now, p, u) ==> ToldBefore(st.tables.logs, p, u, now)
  {
    forall p, u ensures Adds(st.tables.logs, Next(st, step, now).tables.logs, p, u) <==> Writes(st, step, now, p, u) {
      StepWrites(st, step, now, p, u);
    }
    TimelyExact(st.tables.logs, Next(st, step, now).tables.logs, now);
  }

  lemma {:induction false} TimelyExact(a: seq<LogRow>, b: seq<LogRow>, now: int)
    ensures Timely(a, b, now) <==> forall p, u :: Adds(a, b, p, u) ==> ToldBefore(a, p, u, now)
  {
    assert forall p, u :: TimelyAbout(a, b, now, p, u) <==> (Adds(a, b, p, u) ==> ToldBefore(a, p, u, now));
  }

  /** In particular whatever happens at a later time than everything before is on time. */
  lemma {:induction false} LaterIsOnTime(st: State, step: Step, now: int)
    requires Stamped(st.tables.logs, st.now) && st.now < now
    ensures OnTime(st, step, now)
  {
    forall p, u ensures ToldBefore(st.tables.logs, p, u, now) {
      ToldByNow(st.tables.logs, st.now, now, p, u);
    }
    TimelyExact(st.tables.logs, Next(st, step, now).tables.logs, now);
  }
}
