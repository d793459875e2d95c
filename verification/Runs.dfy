/** Whole histories: any sequence of service calls, jobs and administrative changes, starting from an empty database. */
module Runs {
  import opened Positions
  import opened Tables
  import opened CastDiff
  import opened BookingLogs
  import opened SaveItem
  import opened ApplyChanges
  import opened CastSave
  import opened SelfService
  import opened Notices
  import opened NoticeSteps
  import opened Store
  import opened Invariant
  import opened Preservation
  import opened Regulars
  import opened Telling

  datatype Step =
    | SaveStep(p: PerfId, payload: Payload, notBooked: seq<UserId>)
    | UpdateStep(p: PerfId, newSchedule: int, items: seq<SetupItem>, removed: seq<PositionKey>)
    | CreateStep(p: PerfId, newSchedule: int, items: seq<SetupItem>)
    | DeleteStep(p: PerfId)
    | ToggleStep(p: PerfId, user: UserId)
    | NotifyStep
    | PurgeStep
    | UserStep(user: UserId, hasVerifiedEmail: bool)               // registration, e-mail verification or change
    | QualifyStep(user: UserId, positions: set<PositionKey>)       // sync_user_positions
    | CatalogStep(newCatalog: Catalog)                             // creating, reordering and deleting positions

  function Next(st: State, step: Step, now: int): State {
    match step
    case SaveStep(p, payload, notBooked) => SaveCast(st, p, payload, notBooked, now).0
    case UpdateStep(p, schedule, items, removed) => UpdatePerformance(st, p, schedule, items, removed, now).0
    case CreateStep(p, schedule, items) => CreatePerformance(st, p, schedule, items, now).0
    case DeleteStep(p) => DeletePerformance(st, p, now).0
    case ToggleStep(p, u) => Toggle(st, p, u, now).0
    case NotifyStep => Notify(st, now)
    case PurgeStep => PurgeStaleRequests(st, now)
    case UserStep(u, v) => st.(now := now, verified := st.verified[u := v])
    case QualifyStep(u, keys) => st.(now := now, qualified := Requalified(st.qualified, u, keys))
    case CatalogStep(catalog) => st.(now := now, catalog := catalog)
  }

  /**
    What the database and its clients guarantee of a step: fresh ids, logged-in users, no position deleted while in
    use.
  */
  ghost predicate Enabled(st: State, step: Step, now: int) {
    && st.now <= now
    && match step
       case UpdateStep(p, _, items, removed) => Enumerates(removed, RemovedKeys(st.quantities, p, Desired(items)))
       case CreateStep(p, _, _) => p !in st.schedule
       case ToggleStep(_, u) => u in st.verified
       case CatalogStep(catalog) =>
         NoDup(Order(catalog)) && forall slot :: slot in st.quantities ==> slot.key in Order(catalog)
       case _ => true
  }

  /** The step writes about nobody who was told something written at the very same time. */
  ghost predicate OnTime(st: State, step: Step, now: int) {
    Timely(st.tables.logs, Next(st, step, now).tables.logs, now)
  }

  /** A save that goes through leaves no gap. */
  ghost predicate Tidy(st: State, step: Step, now: int) {
    step.SaveStep? && Succeeds(st, step.p, step.payload, now) ==> LeavesNoGap(ChangesOf(st, step.p, step.payload))
  }

  /** A save that goes through promotes nobody silently. */
  ghost predicate Outspoken(st: State, step: Step, now: int) {
    step.SaveStep? && Succeeds(st, step.p, step.payload, now) ==> NobodySilent(st, step.p, step.payload)
  }

  /** The one obligation the service leaves to its clients: a save that goes through must be a good one. */
  ghost predicate Observed(st: State, step: Step, now: int) {
    Tidy(st, step, now) && Outspoken(st, step, now)
  }

  type Trace = seq<(Step, int)>

  function After(st: State, trace: Trace): State {
    if trace == [] then st
    else Next(After(st, trace[..|trace| - 1]), trace[|trace| - 1].0, trace[|trace| - 1].1)
  }

  /** Any history at all. */
  ghost predicate Possible(st: State, trace: Trace) {
    trace == [] ||
    (var (init, last) := (trace[..|trace| - 1], trace[|trace| - 1]);
     Possible(st, init) && Enabled(After(st, init), last.0, last.1))
  }

  /** All steps are on time. */
  ghost predicate Punctual(st: State, trace: Trace) {
    trace == [] ||
    (var (init, last) := (trace[..|trace| - 1], trace[|trace| - 1]);
     Punctual(st, init) && OnTime(After(st, init), last.0, last.1))
  }

  /** No save leaves a gap. */
  ghost predicate AllTidy(st: State, trace: Trace) {
    trace == [] ||
    (var (init, last) := (trace[..|trace| - 1], trace[|trace| - 1]);
     AllTidy(st, init) && Tidy(After(st, init), last.0, last.1))
  }

  /** All saves are good ones. */
  ghost predicate Careful(st: State, trace: Trace) {
    trace == [] ||
    (var (init, last) := (trace[..|trace| - 1], trace[|trace| - 1]);
     Careful(st, init) && Observed(After(st, init), last.0, last.1))
  }

  ghost predicate Legal(st: State, trace: Trace) {
    Possible(st, trace) && Punctual(st, trace) && Careful(st, trace)
  }

  /** A history goes on with one more step. */
  lemma {:induction false} Continue(st: State, trace: Trace, step: Step, now: int)
    ensures var (longer, st') := (trace + [(step, now)], After(st, trace));
            && After(st, longer) == Next(st', step, now)
            && (Possible(st, longer) <==> Possible(st, trace) && Enabled(st', step, now))
            && (Punctual(st, longer) <==> Punctual(st, trace) && OnTime(st', step, now))
            && (Careful(st, longer) <==> Careful(st, trace) && Observed(st', step, now))
  {
    var longer := trace + [(step, now)];
    assert longer[..|longer| - 1] == trace && longer[|longer| - 1] == (step, now);
  }

  /** The steps meant: not back in time, with what the database and its clients guarantee. */
  lemma {:induction false} EnabledMeans(st: State, step: Step, now: int)
    ensures Enabled(st, step, now)
            <==> && st.now <= now
                 && (step.CreateStep? ==> step.p !in st.schedule)
                 && (step.ToggleStep? ==> step.user in st.verified)
                 && (step.UpdateStep? ==>
                       Enumerates(step.removed, RemovedKeys(st.quantities, step.p, Desired(step.items))))
                 && (step.CatalogStep? ==>
                       && NoDup(Order(step.newCatalog))
                       && forall slot :: slot in st.quantities ==> slot.key in Order(step.newCatalog))
  {
  }

  /** The two things a save may be asked for, and being on time, on the state and the payload alone. */
  lemma {:induction false} ConditionsMean(st: State, step: Step, now: int)
    ensures Tidy(st, step, now) && Outspoken(st, step, now)
            <==> (step.SaveStep? && Succeeds(st, step.p, step.payload, now) ==> GoodSave(st, step.p, step.payload))
  {
  }

  // ---- what every step keeps ----------------------------------------------------------------

  lemma {:induction false} InitialInv()
    ensures Inv(INITIAL)
  {
    assert Order(INITIAL.catalog) == [];
  }

  /** Administrative changes touch neither bookings nor log. */
  lemma {:induction false} AdminSound(st: State, step: Step, now: int)
    requires Sound(st) && Enabled(st, step, now) && (step.UserStep? || step.QualifyStep? || step.CatalogStep?)
    ensures Sound(Next(st, step, now))
    ensures Inv(st) ==> Inv(Next(st, step, now))
  {
    var st' := Next(st, step, now);
    StampedLater(st.tables.logs, st.now, now);
    assert References(st');
    if Inv(st) {
      assert Faithful(st');
    }
  }

  lemma {:induction false} UpdateStepSound(st: State, step: Step, now: int)
    requires Sound(st) && Enabled(st, step, now) && step.UpdateStep?
    ensures Sound(Next(st, step, now))
  {
    if Updates(st, step.p, step.newSchedule, step.items, step.removed, now) {
      UpdateSound(st, step.p, step.newSchedule, step.items, step.removed, now);
    }
  }

  lemma {:induction false} StepSound(st: State, step: Step, now: int)
    requires Sound(st) && Enabled(st, step, now)
    ensures Sound(Next(st, step, now))
  {
    match step
    case SaveStep(p, payload, notBooked) =>
      if Succeeds(st, p, payload, now) {
        SaveCastKeeps(st, p, payload, notBooked, now);
      }
    case UpdateStep(_, _, _, _) => UpdateStepSound(st, step, now);
    case CreateStep(p, schedule, items) => CreateSound(st, p, schedule, items, now);
    case DeleteStep(p) => DeleteSound(st, p, now);
    case ToggleStep(p, u) => ToggleSound(st, p, u, now);
    case NotifyStep => NotifySound(st, now);
    case PurgeStep => PurgeStaleSound(st, now);
    case _ => AdminSound(st, step, now);
  }

  /** Steps that run the diff engine run it over some list of changes. */
  lemma {:induction false} CastStep(st: State, step: Step, now: int) returns (changes: seq<Change>)
    requires Sound(st) && Enabled(st, step, now) && (step.SaveStep? || step.UpdateStep? || step.ToggleStep?)
    ensures Next(st, step, now).tables == Run(st.tables, changes, now)
  {
    changes := [];
    match step
    case SaveStep(p, payload, _) =>
      if Succeeds(st, p, payload, now) {
        changes := ChangesOf(st, p, payload);
      }
    case UpdateStep(p, schedule, items, removed) =>
      if Updates(st, p, schedule, items, removed, now) {
        UpdateKeeps(st, p, schedule, items, removed, now);
        changes := UpdateChanges(st, p, items, removed);
      }
    case ToggleStep(p, u) =>
      ToggleCases(st, p, u, now);
      if Next(st, step, now).tables != st.tables {
        var b := BookingOf(st.tables.bookings, p, u).value;
        CancelKeeps(st, b, now);
        changes := [CancelChange(st.tables.bookings, st.quantities, b)];
      }
  }

  /** Exactly the steps on time keep what the booking-status job relies on. */
  lemma {:induction false} StepNotices(st: State, step: Step, now: int)
    requires Sound(st) && NoticesSound(st.tables.logs) && Enabled(st, step, now)
    ensures NoticesSound(Next(st, step, now).tables.logs) <==> OnTime(st, step, now)
  {
    var logs := st.tables.logs;
    if step.SaveStep? || step.UpdateStep? || step.ToggleStep? {
      var changes := CastStep(st, step, now);
      RunNotices(st.tables, changes, now);
    } else {
      forall p, u ensures NoticesOk(Next(st, step, now).tables.logs, p, u) &&
                          !Adds(logs, Next(st, step, now).tables.logs, p, u)
      {
        QuietStepNotices(st, step, now, p, u);
        QuietAdds(st, step, now, p, u);
      }
    }
  }

  /** The other steps leave the log alone, orphan the rows of one performance, or mark some. */
  lemma {:induction false} QuietLogs(st: State, step: Step, now: int)
    requires !step.SaveStep? && !step.UpdateStep? && !step.ToggleStep?
    ensures var (logs, logs') := (st.tables.logs, Next(st, step, now).tables.logs);
            || logs' == logs
            || (step.DeleteStep? && logs' == Orphaned(logs, step.p))
            || (step.NotifyStep? && logs' == Notify(st, now).tables.logs)
  {
  }

  lemma {:induction false} QuietAdds(st: State, step: Step, now: int, p: PerfId, u: UserId)
    requires !step.SaveStep? && !step.UpdateStep? && !step.ToggleStep?
    ensures !Adds(st.tables.logs, Next(st, step, now).tables.logs, p, u)
  {
    QuietLogs(st, step, now);
    MarkedAbout(st.tables.logs, MarkedIds(st, now), now, p, u);
    if step.DeleteStep? {
      OrphanedAbout(st.tables.logs, step.p, p, u);
    }
  }

  lemma {:induction false} QuietStepNotices(st: State, step: Step, now: int, p: PerfId, u: UserId)
    requires Sound(st) && NoticesSound(st.tables.logs)
    requires !step.SaveStep? && !step.UpdateStep? && !step.ToggleStep?
    ensures NoticesOk(Next(st, step, now).tables.logs, p, u)
  {
    assert NoticesOk(st.tables.logs, p, u);
    QuietLogs(st, step, now);
    NotifyNotices(st, now, p, u);
    if step.DeleteStep? {
      OrphanedNoticesOk(st.tables.logs, step.p, p, u);
    }
  }

  lemma {:induction false} SaveStepGapFree(st: State, p: PerfId, payload: Payload, notBooked: seq<UserId>, now: int)
    requires Sound(st) && GapFree(st.tables.bookings)
    ensures GapFree(SaveCast(st, p, payload, notBooked, now).0.tables.bookings)
            <==> (Succeeds(st, p, payload, now) ==> LeavesNoGap(ChangesOf(st, p, payload)))
  {
    if Succeeds(st, p, payload, now) {
      var changes := ChangesOf(st, p, payload);
      SaveShape(st, p, payload);
      RunBookings(st.tables, changes, now);
      SaveGapFree(st.tables.bookings, changes, p);
    }
  }

  lemma {:induction false} UpdateStepGapFree(st: State, step: Step, now: int)
    requires Sound(st) && GapFree(st.tables.bookings) && Enabled(st, step, now) && step.UpdateStep?
    ensures GapFree(Next(st, step, now).tables.bookings)
  {
    if Updates(st, step.p, step.newSchedule, step.items, step.removed, now) {
      UpdateKeeps(st, step.p, step.newSchedule, step.items, step.removed, now);
      UpdateGapFree(st, step.p, step.newSchedule, step.items, step.removed, now);
    }
  }

  lemma {:induction false} ToggleGapFree(st: State, p: PerfId, u: UserId, now: int)
    requires Sound(st) && GapFree(st.tables.bookings)
    ensures GapFree(Toggle(st, p, u, now).0.tables.bookings)
  {
    ToggleCases(st, p, u, now);
    if BookingOf(st.tables.bookings, p, u).Some? {
      CancelGapFree(st, BookingOf(st.tables.bookings, p, u).value, now);
    }
  }

  /** The orders stay gap-free exactly if the step is not a save that leaves a gap. */
  lemma {:induction false} StepGapFree(st: State, step: Step, now: int)
    requires Sound(st) && GapFree(st.tables.bookings) && Enabled(st, step, now)
    ensures GapFree(Next(st, step, now).tables.bookings) <==> Tidy(st, step, now)
  {
    match step
    case SaveStep(p, payload, notBooked) => SaveStepGapFree(st, p, payload, notBooked, now);
    case UpdateStep(_, _, _, _) => UpdateStepGapFree(st, step, now);
    case ToggleStep(p, u) => ToggleGapFree(st, p, u, now);
    case _ =>
  }

  /** The log stays faithful exactly if the step is not a save that promotes somebody silently, whatever the time. */
  lemma {:induction false} StepFaithful(st: State, step: Step, now: int)
    requires Sound(st) && GapFree(st.tables.bookings) && Faithful(st) && Enabled(st, step, now)
    ensures Faithful(Next(st, step, now)) <==> Outspoken(st, step, now)
  {
    match step
    case SaveStep(p, payload, notBooked) => SaveStepFaithful(st, p, payload, notBooked, now);
    case UpdateStep(p, schedule, items, removed) =>
      if Updates(st, p, schedule, items, removed, now) {
        UpdateFaithful(st, p, schedule, items, removed, now);
      }
    case CreateStep(p, schedule, items) => CreateFaithful(st, p, schedule, items, now);
    case DeleteStep(p) => DeleteStepFaithful(st, p, now);
    case ToggleStep(p, u) => ToggleFaithful(st, p, u, now);
    case NotifyStep => NotifyFaithful(st, now);
    case _ => SameFaithful(st, Next(st, step, now));
  }

  /** Only bookings, quantities and log matter to whether the log is faithful. */
  lemma {:induction false} SameFaithful(st: State, st': State)
    requires st'.tables == st.tables && st'.quantities == st.quantities
    ensures Faithful(st') <==> Faithful(st)
  {
    assert forall p, u :: Agree(st'.tables, st'.quantities, p, u) <==> Agree(st.tables, st.quantities, p, u);
  }

  lemma {:induction false} SaveStepFaithful(st: State, p: PerfId, payload: Payload, notBooked: seq<UserId>, now: int)
    requires Sound(st) && Faithful(st)
    ensures Faithful(SaveCast(st, p, payload, notBooked, now).0)
            <==> (Succeeds(st, p, payload, now) ==> NobodySilent(st, p, payload))
  {
    if Succeeds(st, p, payload, now) {
      SaveFaithful(st, p, payload, now);
      SameFaithful(st.(tables := Run(st.tables, ChangesOf(st, p, payload), now)),
                   SaveCast(st, p, payload, notBooked, now).0);
    }
  }

  lemma {:induction false} DeleteStepFaithful(st: State, p: PerfId, now: int)
    requires Faithful(st)
    ensures Faithful(DeletePerformance(st, p, now).0)
  {
    var (st', outcome) := DeletePerformance(st, p, now);
    if outcome == Done {
      forall q, u ensures Agree(st'.tables, st'.quantities, q, u) {
        DeleteFaithful(st, p, now, q, u);
      }
    }
  }

  lemma {:induction false} ToggleFaithful(st: State, p: PerfId, u: UserId, now: int)
    requires Sound(st) && GapFree(st.tables.bookings) && Faithful(st)
    ensures Faithful(Toggle(st, p, u, now).0)
  {
    var st', b := Toggle(st, p, u, now).0, BookingOf(st.tables.bookings, p, u);
    ToggleCases(st, p, u, now);
    if b.Some? && st' == Cancelled(st, p, u, now) {
      CancelFaithful(st, b.value, now);
    } else {
      SameFaithful(st, st');
    }
  }

  /** The full invariant stays exactly if the step is on time and no bad save. */
  lemma {:induction false} StepInv(st: State, step: Step, now: int)
    requires Inv(st) && Enabled(st, step, now)
    ensures Inv(Next(st, step, now)) <==> OnTime(st, step, now) && Observed(st, step, now)
  {
    StepSound(st, step, now);
    StepGapFree(st, step, now);
    StepFaithful(st, step, now);
    StepNotices(st, step, now);
  }

  // ---- whole histories ----------------------------------------------------------------------

  /** After any history at all the database is sound. */
  lemma {:induction false} RunSound(st: State, trace: Trace)
    requires Sound(st) && Possible(st, trace)
    ensures Sound(After(st, trace))
  {
    if trace != [] {
      RunSound(st, trace[..|trace| - 1]);
      StepSound(After(st, trace[..|trace| - 1]), trace[|trace| - 1].0, trace[|trace| - 1].1);
    }
  }

  /** After any history on time the notices are sound. */
  lemma {:induction false} RunNoticesSound(st: State, trace: Trace)
    requires Sound(st) && NoticesSound(st.tables.logs) && Possible(st, trace) && Punctual(st, trace)
    ensures NoticesSound(After(st, trace).tables.logs)
  {
    if trace != [] {
      RunNoticesSound(st, trace[..|trace| - 1]);
      RunSound(st, trace[..|trace| - 1]);
      StepNotices(After(st, trace[..|trace| - 1]), trace[|trace| - 1].0, trace[|trace| - 1].1);
    }
  }

  /** After any history without a save that leaves a gap, the orders are gap-free, whatever became of the log. */
  lemma {:induction false} RunGapFree(st: State, trace: Trace)
    requires Sound(st) && GapFree(st.tables.bookings) && Possible(st, trace) && AllTidy(st, trace)
    ensures Sound(After(st, trace)) && GapFree(After(st, trace).tables.bookings)
  {
    if trace != [] {
      RunGapFree(st, trace[..|trace| - 1]);
      StepSound(After(st, trace[..|trace| - 1]), trace[|trace| - 1].0, trace[|trace| - 1].1);
      StepGapFree(After(st, trace[..|trace| - 1]), trace[|trace| - 1].0, trace[|trace| - 1].1);
    }
  }

  lemma {:induction false} CarefulTidy(st: State, trace: Trace)
    requires Careful(st, trace)
    ensures AllTidy(st, trace)
  {
    if trace != [] {
      CarefulTidy(st, trace[..|trace| - 1]);
    }
  }

  /** After any history of good saves the log is faithful, whatever the times. */
  lemma {:induction false} RunFaithful(st: State, trace: Trace)
    requires Sound(st) && GapFree(st.tables.bookings) && Faithful(st) && Possible(st, trace) && Careful(st, trace)
    ensures Faithful(After(st, trace))
  {
    if trace != [] {
      var init, last := trace[..|trace| - 1], trace[|trace| - 1];
      RunFaithful(st, init);
      CarefulTidy(st, init);
      RunGapFree(st, init);
      StepFaithful(After(st, init), last.0, last.1);
    }
  }

  /** Safety over whole runs: after any legal history the full invariant holds. */
  lemma {:induction false} RunInv(st: State, trace: Trace)
    requires Inv(st) && Legal(st, trace)
    ensures Inv(After(st, trace))
  {
    if trace != [] {
      RunInv(st, trace[..|trace| - 1]);
      StepInv(After(st, trace[..|trace| - 1]), trace[|trace| - 1].0, trace[|trace| - 1].1);
    }
  }

  lemma {:induction false} NotifyAppended(st: State, trace: Trace, now: int)
    ensures After(st, trace + [(NotifyStep, now)]) == Notify(After(st, trace), now)
  {
    Continue(st, trace, NotifyStep, now);
  }

  lemma {:induction false} LegalInv(trace: Trace)
    requires Legal(INITIAL, trace)
    ensures Inv(After(INITIAL, trace))
  {
    InitialInv();
    RunInv(INITIAL, trace);
  }

  lemma {:induction false} PunctualNotices(trace: Trace)
    requires Possible(INITIAL, trace) && Punctual(INITIAL, trace)
    ensures Sound(After(INITIAL, trace)) && NoticesSound(After(INITIAL, trace).tables.logs)
  {
    InitialInv();
    RunSound(INITIAL, trace);
    RunNoticesSound(INITIAL, trace);
  }

  /**
    After every history of good saves the log says "book" last exactly about the users who hold a regular slot: ties
    in time, which can mislead the job, do not touch this.
  */
  lemma {:induction false} LogFaithful(trace: Trace, p: PerfId, u: UserId)
    requires Possible(INITIAL, trace) && Careful(INITIAL, trace)
    ensures var st := After(INITIAL, trace);
            LoggedIn(st.tables.logs, p, u) <==> Regular(st.tables.bookings, st.quantities, p, u)
  {
    InitialInv();
    RunFaithful(INITIAL, trace);
    assert Agree(After(INITIAL, trace).tables, After(INITIAL, trace).quantities, p, u);
  }

  /** After no history at all, good saves or not, is anybody booked on a performance and rejected for it. */
  lemma {:induction false} NeverBookedAndRejected(trace: Trace, p: PerfId, u: UserId)
    requires Possible(INITIAL, trace)
    ensures var st := After(INITIAL, trace);
            BookingOf(st.tables.bookings, p, u).Some? && (p, u) in st.requests ==> !st.requests[(p, u)]
  {
    InitialInv();
    RunSound(INITIAL, trace);
    assert RejectedFree(After(INITIAL, trace));
  }

  // ---- what users are told ------------------------------------------------------------------

  /**
    Right after the job, every mailable user has been told what the log says about every upcoming performance, and
    nobody is due a notice any more: in every state whose notices are sound, whatever the bookings are.
  */
  lemma {:induction false} NotifyTellsLog(st: State, now: int, p: PerfId, u: UserId)
    requires Stamped(st.tables.logs, st.now) && NoticesSound(st.tables.logs)
    requires p in st.schedule && st.schedule[p] > now && u in st.verified && st.verified[u]
    ensures var logs' := Notify(st, now).tables.logs;
            && (ToldBooked(logs', p, u) <==> LoggedIn(logs', p, u))
            && (LoggedIn(logs', p, u) <==> LoggedIn(st.tables.logs, p, u))
            && !Due(logs', p, u)
  {
    var logs, ids := st.tables.logs, MarkedIds(st, now);
    assert NoticesOk(logs, p, u);
    DecisionDue(logs, p, u);
    NotifyMarksDecided(st, now, p, u);
    NotifyMarksAll(st, now, p, u);
    MarkedNotDue(logs, st.now, ids, now, p, u);
    MarkedLoggedIn(logs, st.now, ids, now, p, u);
  }

  /** So, after any history on time, users are told exactly what the log says. */
  lemma {:induction false} ToldWhatIsLogged(trace: Trace, now: int, p: PerfId, u: UserId)
    requires Possible(INITIAL, trace) && Punctual(INITIAL, trace)
    requires var st := After(INITIAL, trace);
             p in st.schedule && st.schedule[p] > now && u in st.verified && st.verified[u]
    ensures var st := After(INITIAL, trace + [(NotifyStep, now)]);
            ToldBooked(st.tables.logs, p, u) <==> LoggedIn(st.tables.logs, p, u)
  {
    NotifyAppended(INITIAL, trace, now);
    PunctualNotices(trace);
    NotifyTellsLog(After(INITIAL, trace), now, p, u);
  }

  /** If moreover the log is faithful, they are told the truth. */
  lemma {:induction false} NotifyTellsTruth(st: State, now: int, p: PerfId, u: UserId)
    requires Inv(st) && p in st.schedule && st.schedule[p] > now && u in st.verified && st.verified[u]
    ensures ToldBooked(Notify(st, now).tables.logs, p, u) <==> Regular(st.tables.bookings, st.quantities, p, u)
  {
    NotifyTellsLog(st, now, p, u);
    assert Agree(st.tables, st.quantities, p, u);
  }

  /**
    End to end: over every legal run, right after the booking-status job, the last thing each user with a verified
    address was told about each upcoming performance is "booked" exactly when it holds a regular slot there.
  */
  lemma {:induction false} EndToEnd(trace: Trace, now: int, p: PerfId, u: UserId)
    requires Legal(INITIAL, trace)
    requires var st := After(INITIAL, trace);
             p in st.schedule && st.schedule[p] > now && u in st.verified && st.verified[u]
    ensures var st := After(INITIAL, trace + [(NotifyStep, now)]);
            (exists i :: LastTold(st.tables.logs, i, p, u) && st.tables.logs[i].kind == Book)
            <==> exists b :: && b in st.tables.bookings && b.slot.perf == p && b.user == u
                             && b.slot in st.quantities && b.order < st.quantities[b.slot]
  {
    NotifyAppended(INITIAL, trace, now);
    LegalInv(trace);
    NotifyTellsTruth(After(INITIAL, trace), now, p, u);
    ToldBookedMeans(After(INITIAL, trace + [(NotifyStep, now)]).tables.logs, p, u);
    RegularMeans(After(INITIAL, trace).tables.bookings, After(INITIAL, trace).quantities, p, u);
  }

  /** After every history on time the notices about a performance alternate book, unbook, book, ... from "book" on. */
  lemma {:induction false} NoticesAlternate(trace: Trace, p: PerfId, u: UserId, i: nat)
    requires Possible(INITIAL, trace) && Punctual(INITIAL, trace)
    requires i < |Told(After(INITIAL, trace).tables.logs, p, u)|
    ensures Told(After(INITIAL, trace).tables.logs, p, u)[i].kind == if i % 2 == 0 then Book else Unbook
  {
    PunctualNotices(trace);
    assert NoticesOk(After(INITIAL, trace).tables.logs, p, u);
    AlternatesAt(Told(After(INITIAL, trace).tables.logs, p, u), i);
  }

  lemma {:induction false} AlternatesAt(told: seq<LogRow>, i: nat)
    requires Alternates(told) && i < |told|
    ensures told[i].kind == if i % 2 == 0 then Book else Unbook
  {
    if i < |told| - 1 {
      AlternatesAt(told[..|told| - 1], i);
    }
  }

  /** Running the job again, with nothing happening in between, tells nobody anything: whatever is in the log. */
  lemma {:induction false} NotifyTwice(st: State, now: int, later: int)
    requires Stamped(st.tables.logs, st.now) && now <= later
    ensures Notify(Notify(st, now), later).tables == Notify(st, now).tables
  {
    var st' := Notify(st, now);
    var logs := st'.tables.logs;
    if MarkedIds(st', later) != {} {
      var id :| id in MarkedIds(st', later);
      var r :| r in logs && Marks(st', r, later) && r.id == id;
      NotifyMarksDecided(st, now, r.perf.value, r.user.value);
      NotifyMarksAll(st, now, r.perf.value, r.user.value);
      MarkedDecision(st.tables.logs, st.now, MarkedIds(st, now), now, r.perf.value, r.user.value);
    }
    MarkedNone(logs, {}, later);
  }

  // ---- who counts as regular ----------------------------------------------------------------

  /** After every history without a save that leaves a gap, the three notions of "regular" mean the same users. */
  lemma {:induction false} RegularAlways(trace: Trace, slot: Slot, u: UserId)
    requires Possible(INITIAL, trace) && AllTidy(INITIAL, trace)
    ensures var st := After(INITIAL, trace);
            var (cast, quantity) := (CastOf(st.tables.bookings, slot), QuantityAt(st.quantities, slot));
            && (RegularAt(st, slot, u) <==> RegularIn(Ids(cast), quantity, u))
            && (RegularIn(Ids(cast), quantity, u) <==> u in Ids(cast[..Min(|cast|, quantity)]))
  {
    var st := After(INITIAL, trace);
    InitialInv();
    RunGapFree(INITIAL, trace);
    GapFreeAligned(st.tables.bookings, st.quantities, slot);
    RegularNotions(st, slot, u);
  }
}
