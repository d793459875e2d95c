/**
  Four short histories from the empty database, computed step by step: one where all goes well, and three that show what
  happens without one of the conditions on histories. In two of them a legal history is followed by a save that the
  service accepts, after which the orders of a position have a gap, or the log disagrees with the bookings. In the last
  one two transactions have the same time, and a run of the job overlooks a notice that is due.
*/
module Histories {
  import opened Positions
  import opened Tables
  import opened CastDiff
  import opened BookingLogs
  import opened SaveItem
  import opened ApplyChanges
  import opened CastSave
  import opened Notices
  import opened NoticeSteps
  import opened Store
  import opened Invariant
  import opened Assumptions
  import opened Runs
  import opened Counterexamples

  const U: UserId := 7
  const V: UserId := 8
  const SLOT := Slot(0, FIRST)
  const CATALOG := Catalog([1], [1], [])

  /** One position, or two, each needed once. */
  function Items(both: bool): seq<SetupItem> {
    if both then [SetupItem(FIRST, 1), SetupItem(SECOND, 1)] else [SetupItem(FIRST, 1)]
  }

  function Needed(both: bool): Quantities {
    if both then Quantities1(0) else map[SLOT := 1]
  }

  /** Positions, two users and a performance. */
  function Preparation(both: bool): Trace {
    [] + [(CatalogStep(CATALOG), 1)] + [(UserStep(U, true), 2)] + [(UserStep(V, true), 3)]
      + [(CreateStep(0, 10 * DAY, Items(both)), 4)]
  }

  /** The state with everything in place, with some bookings and some log. */
  function Prepared(both: bool, now: int, tables: CastTables): State {
    State(now, map[0 := 10 * DAY], CATALOG, Needed(both), tables, map[], map[U := true, V := true], {})
  }

  // ---- preparing ----------------------------------------------------------------------------

  lemma {:induction false} OrderIs()
    ensures Order(CATALOG) == [FIRST, SECOND] && NoDup(Order(CATALOG))
  {
    assert [1][..0] == [];
    assert KeysOfKind(Instruments, [1]) == [FIRST] && KeysOfKind(Voices, [1]) == [SECOND];
    assert [FIRST, SECOND][..1] == [FIRST] && [FIRST][..0] == [];
  }

  lemma {:induction false} ItemsAre(both: bool)
    ensures NoDup(Keys(Items(both))) && Synced(map[], 0, Desired(Items(both))) == Needed(both)
  {
    var one := [SetupItem(FIRST, 1)];
    assert one[..0] == [] && Keys(one) == [FIRST] && [FIRST][..0] == [];
    assert Desired([]) == map[] && Desired(one) == map[FIRST := 1];
    assert Synced(map[], 0, Desired(one)) == map[SLOT := 1];
    if both {
      assert Items(both)[..1] == one && Keys(Items(both)) == [FIRST, SECOND];
      assert [FIRST, SECOND][..1] == [FIRST];
      assert Desired(Items(both)) == map[FIRST := 1, SECOND := 1];
      assert Synced(map[], 0, Desired(Items(both))) == Quantities1(0);
    }
  }

  lemma {:induction false} SetupValid(both: bool, st: State)
    requires st.catalog == CATALOG
    ensures ValidSetup(st, Items(both))
  {
    OrderIs();
    ItemsAre(both);
  }

  lemma {:induction false} SetupIs(both: bool, st: State)
    requires st.catalog == CATALOG && st.quantities == Needed(both)
    ensures Store.GetSetup(st, 0) == Items(both)
  {
    OrderIs();
    var qs := Needed(both);
    assert [FIRST, SECOND][..1] == [FIRST] && [FIRST][..0] == [];
    assert ItemsAmong([FIRST], qs, 0) == [SetupItem(FIRST, 1)] by {
      assert ItemsAmong([], qs, 0) == [];
    }
  }

  lemma {:induction false} CreateIs(both: bool, st: State)
    requires st == State(3, map[], CATALOG, map[], CastTables([], []), map[], map[U := true, V := true], {})
    ensures Next(st, CreateStep(0, 10 * DAY, Items(both)), 4) == Prepared(both, 4, CastTables([], []))
  {
    SetupValid(both, st);
    ItemsAre(both);
    assert TomorrowStart(4) == DAY;
  }

  /** A history goes on with a step that writes no log. */
  lemma {:induction false} QuietStep(trace: Trace, st: State, step: Step, now: int, st': State)
    requires Legal(INITIAL, trace) && After(INITIAL, trace) == st && Enabled(st, step, now) && !step.SaveStep?
    requires Next(st, step, now) == st' && st'.tables.logs == st.tables.logs
    ensures Legal(INITIAL, trace + [(step, now)]) && After(INITIAL, trace + [(step, now)]) == st'
  {
    Continue(INITIAL, trace, step, now);
  }

  lemma {:induction false} PreparationEnds(both: bool)
    ensures Legal(INITIAL, Preparation(both))
            && After(INITIAL, Preparation(both)) == Prepared(both, 4, CastTables([], []))
    ensures Inv(Prepared(both, 4, CastTables([], [])))
  {
    var one := State(1, map[], CATALOG, map[], CastTables([], []), map[], map[], {});
    var two := one.(now := 2, verified := map[U := true]);
    var three := two.(now := 3, verified := map[U := true, V := true]);
    var t1: Trace := [] + [(CatalogStep(CATALOG), 1)];
    var t2 := t1 + [(UserStep(U, true), 2)];
    var t3 := t2 + [(UserStep(V, true), 3)];
    OrderIs();
    QuietStep([], INITIAL, CatalogStep(CATALOG), 1, one);
    QuietStep(t1, one, UserStep(U, true), 2, two);
    QuietStep(t2, two, UserStep(V, true), 3, three);
    CreateIs(both, three);
    QuietStep(t3, three, CreateStep(0, 10 * DAY, Items(both)), 4, Prepared(both, 4, CastTables([], [])));
    LegalInv(Preparation(both));
  }

  // ---- saving -------------------------------------------------------------------------------

  function ChangesAre(both: bool, payload: Payload): seq<Change> {
    SaveChanges(0, Items(both), payload)
  }

  /** What a save does to such a state. */
  lemma {:induction false} SaveIs(both: bool, st: State, payload: Payload, now: int)
    requires st == Prepared(both, st.now, st.tables) && now <= DAY
    requires AllAcceptable(ChangesAre(both, payload), {U, V})
    ensures ChangesOf(st, 0, payload) == ChangesAre(both, payload) && Succeeds(st, 0, payload, now)
    ensures Next(st, SaveStep(0, payload, []), now)
            == Prepared(both, now, Run(st.tables, ChangesAre(both, payload), now))
  {
    SetupIs(both, st);
    assert ChangesOf(st, 0, payload) == ChangesAre(both, payload);
    AcceptedIs(st, ChangesAre(both, payload));
    SavedState(both, st, payload, now);
  }

  lemma {:induction false} AcceptedIs(st: State, changes: seq<Change>)
    requires st.verified == map[U := true, V := true]
    ensures AllAcceptable(changes, {U, V}) ==> AllAcceptable(changes, st.verified.Keys)
  {
    assert st.verified.Keys == {U, V};
  }

  lemma {:induction false} SavedState(both: bool, st: State, payload: Payload, now: int)
    requires st == Prepared(both, st.now, st.tables)
    requires Succeeds(st, 0, payload, now)
    ensures Next(st, SaveStep(0, payload, []), now)
            == Prepared(both, now, Run(st.tables, ChangesOf(st, 0, payload), now))
  {
    assert ApplyNotbooked(map[], 0, [], Run(st.tables, ChangesOf(st, 0, payload), now).bookings) == map[];
  }

  lemma {:induction false} AcceptableIs(c: Change)
    requires c.Cast() == [] || c.Cast() == One(U) || c.Cast() == One(V) || c.Cast() == Two(U, V)
    ensures Acceptable(c, {U, V})
  {
    OneIds(U);
    OneIds(V);
    TwoIds(U, V);
  }

  /** The two-position save in the shape the counterexamples use. */
  lemma {:induction false} SaveBoth(st: State, first: seq<CastEntry>, second: seq<CastEntry>, now: int)
    requires st == Prepared(true, st.now, st.tables) && now <= DAY
    requires first == [] || first == One(U) || first == Two(U, V)
    requires second == One(U) || second == One(V) || second == Two(U, V)
    ensures var payload: Payload := map[FIRST := first, SECOND := second];
            && ChangesOf(st, 0, payload) == Save(0, first, second) && Succeeds(st, 0, payload, now)
            && Next(st, SaveStep(0, payload, []), now)
              == Prepared(true, now, Run(st.tables, Save(0, first, second), now))
  {
    SaveIsSaveChanges(0, first, second);
    AcceptableIs(Save(0, first, second)[0]);
    AcceptableIs(Save(0, first, second)[1]);
    SaveIs(true, st, map[FIRST := first, SECOND := second], now);
  }

  // ---- a user listed twice ------------------------------------------------------------------

  lemma {:induction false} GapAfterSave(trace: Trace, payload: Payload)
    requires After(INITIAL, trace) == Prepared(true, 4, CastTables([], []))
    requires payload == map[FIRST := Two(U, V), SECOND := One(U)]
    ensures Succeeds(After(INITIAL, trace), 0, payload, 5)
    ensures !GapFree(After(INITIAL, trace + [(SaveStep(0, payload, []), 5)]).tables.bookings)
  {
    var st := After(INITIAL, trace);
    SaveBoth(st, Two(U, V), One(U), 5);
    Continue(INITIAL, trace, SaveStep(0, payload, []), 5);
    DoubleListingLeavesGap(0, U, V);
    RunBookings(st.tables, Save(0, Two(U, V), One(U)), 5);
  }

  /** After a legal history, a save the service accepts leaves a position with nobody at order 0. */
  lemma {:induction false} GapInReachableState()
    ensures var (trace, payload: Payload) := (Preparation(true), map[FIRST := Two(U, V), SECOND := One(U)]);
            && Legal(INITIAL, trace) && Succeeds(After(INITIAL, trace), 0, payload, 5)
            && !GapFree(After(INITIAL, trace + [(SaveStep(0, payload, []), 5)]).tables.bookings)
  {
    PreparationEnds(true);
    GapAfterSave(Preparation(true), map[FIRST := Two(U, V), SECOND := One(U)]);
  }

  // ---- a move backward ----------------------------------------------------------------------

  lemma {:induction false} FirstSaveRows()
    ensures RunRows([], Save(0, [], Two(U, V))) == Rows(0, U, V)
  {
    var changes := Save(0, [], Two(U, V));
    SaveParts(0, [], Two(U, V));
    assert RunRows([], []) == [] && Last([changes[0]]) == changes[0] && Last(changes) == changes[1];
    assert Recast([], SLOT, []) == [] + NewRows(SLOT, []) == [];
    assert RunRows([], [changes[0]]) == [];
    assert Recast([], Slot(0, SECOND), Two(U, V)) == [] + Rows(0, U, V);
  }

  /** A good first save: U regular, V on standby of the second position. */
  lemma {:induction false} FirstSaveGood()
    ensures GoodSave(Prepared(true, 4, CastTables([], [])), 0, map[FIRST := [], SECOND := Two(U, V)])
  {
    var st := Prepared(true, 4, CastTables([], []));
    var payload: Payload := map[FIRST := [], SECOND := Two(U, V)];
    var changes := Save(0, [], Two(U, V));
    PreparationEnds(true);
    SaveBoth(st, [], Two(U, V), 5);
    SaveParts(0, [], Two(U, V));
    assert NoneTaken(changes[0].Cast(), UsersIn(changes, 1)) && NoneTaken(changes[1].Cast(), UsersIn(changes, 2));
    assert Disjoint(changes);
    assert forall u :: BookingOf([], 0, u).None?;
    AssumptionsSuffice(st, 0, payload, 5);
  }

  lemma {:induction false} NothingToldOnTime(st: State, step: Step, now: int)
    requires st.tables.logs == []
    ensures OnTime(st, step, now)
  {
  }

  /** A history goes on with a good save, as long as nothing is logged. */
  lemma {:induction false} GoodSaveStep(before: Trace, st: State, payload: Payload, now: int)
    requires Legal(INITIAL, before) && After(INITIAL, before) == st && st.tables.logs == [] && st.now <= now
    requires GoodSave(st, 0, payload)
    ensures var step := SaveStep(0, payload, []);
            Legal(INITIAL, before + [(step, now)]) && After(INITIAL, before + [(step, now)]) == Next(st, step, now)
  {
    Continue(INITIAL, before, SaveStep(0, payload, []), now);
    NothingToldOnTime(st, SaveStep(0, payload, []), now);
  }

  /** The state after the first save. */
  lemma {:induction false} FirstSaveLegal() returns (trace: Trace, logs: seq<LogRow>)
    ensures Legal(INITIAL, trace) && After(INITIAL, trace) == Prepared(true, 5, CastTables(Rows(0, U, V), logs))
  {
    var st := Prepared(true, 4, CastTables([], []));
    var payload: Payload := map[FIRST := [], SECOND := Two(U, V)];
    trace := Preparation(true);
    PreparationEnds(true);
    SaveBoth(st, [], Two(U, V), 5);
    FirstSaveGood();
    FirstSaveRows();
    GoodSaveStep(trace, st, payload, 5);
    RunBookings(st.tables, Save(0, [], Two(U, V)), 5);
    trace := trace + [(SaveStep(0, payload, []), 5)];
    logs := Run(st.tables, Save(0, [], Two(U, V)), 5).logs;
  }

  /** After a legal history, a save the service accepts makes a user regular, and the log never says so. */
  lemma {:induction false} SilentInReachableState() returns (trace: Trace)
    ensures var payload: Payload := map[FIRST := One(U), SECOND := One(V)];
            && Legal(INITIAL, trace) && Succeeds(After(INITIAL, trace), 0, payload, 6)
            && Disjoint(ChangesOf(After(INITIAL, trace), 0, payload))
            && var st := After(INITIAL, trace + [(SaveStep(0, payload, []), 6)]);
               Regular(st.tables.bookings, st.quantities, 0, V) && !LoggedIn(st.tables.logs, 0, V)
  {
    var logs: seq<LogRow>;
    trace, logs := FirstSaveLegal();
    var payload: Payload := map[FIRST := One(U), SECOND := One(V)];
    var st := Prepared(true, 5, CastTables(Rows(0, U, V), logs));
    InitialInv();
    RunInv(INITIAL, trace);
    assert Agree(st.tables, st.quantities, 0, V);
    SaveBoth(st, One(U), One(V), 6);
    Continue(INITIAL, trace, SaveStep(0, payload, []), 6);
    BackwardMoveIsSilent(0, U, V, logs, 6);
  }

  // ---- booking and telling one user ---------------------------------------------------------

  const BOOKING: Payload := map[FIRST := One(U)]
  const NOBODY: Payload := map[]

  lemma {:induction false} OneChange(payload: Payload)
    ensures ChangesAre(false, payload)
            == [Change(SLOT, 1, if FIRST in payload then Some(payload[FIRST]) else None, None)]
  {
    assert Items(false)[..0] == [];
  }

  lemma {:induction false} RunOne(t: CastTables, c: Change, now: int)
    ensures Run(t, [c], now) == Run1(t, c, now)
  {
    assert Init([c]) == [] && Last([c]) == c;
  }

  /** Booking U onto the empty position. */
  lemma {:induction false} BookU(logs: seq<LogRow>, st: State, now: int)
    requires st == Prepared(false, st.now, CastTables([], logs)) && now <= DAY
    ensures Succeeds(st, 0, BOOKING, now) && ChangesOf(st, 0, BOOKING) == ChangesAre(false, BOOKING)
    ensures Next(st, SaveStep(0, BOOKING, []), now)
            == Prepared(false, now, CastTables([Booking(SLOT, U, 0, 0)],
                                               logs + [Notice(|logs|, 0, U, Book, now, false)]))
  {
    var c := Change(SLOT, 1, Some(One(U)), None);
    OneChange(BOOKING);
    AcceptableIs(c);
    SaveIs(false, st, BOOKING, now);
    RunOne(st.tables, c, now);
    OneIds(U);
    assert CastOf([], SLOT) == [] && Ids([]) == [];
    assert [Judged([], One(U)[0], 0, 1, 1)][..0] == [];
    assert Judgments([], One(U), 1, 1) == [[Transition(U, Book, 0)]];
    assert Diff([], One(U), 1, None) == [] + ([] + [Transition(U, Book, 0)]) == [Transition(U, Book, 0)];
    assert LogRows([Transition(U, Book, 0)], |logs|, SLOT, now) == [Notice(|logs|, 0, U, Book, now, false)];
    assert Recast([], SLOT, One(U)) == [] + NewRows(SLOT, One(U)) == [Booking(SLOT, U, 0, 0)];
  }

  /** Taking U off again. */
  lemma {:induction false} UnbookU(logs: seq<LogRow>, st: State, now: int)
    requires st == Prepared(false, st.now, CastTables([Booking(SLOT, U, 0, 0)], logs)) && now <= DAY
    ensures Next(st, SaveStep(0, NOBODY, []), now)
            == Prepared(false, now, CastTables([], logs + [Notice(|logs|, 0, U, Unbook, now, false)]))
  {
    var c := Change(SLOT, 1, None, None);
    OneChange(NOBODY);
    AcceptableIs(c);
    SaveIs(false, st, NOBODY, now);
    RunOne(st.tables, c, now);
    PurgeU(logs, now);
  }

  lemma {:induction false} PurgeU(logs: seq<LogRow>, now: int)
    ensures SaveCastItem(CastTables([Booking(SLOT, U, 0, 0)], logs), SLOT, 1, None, None, now)
            == CastTables([], logs + [Notice(|logs|, 0, U, Unbook, now, false)])
  {
    var rows := [Booking(SLOT, U, 0, 0)];
    RowsOfU();
    assert Span(One(U), 0, 1, Unbook) == [] + [Transition(U, Unbook, 0)] == [Transition(U, Unbook, 0)];
    assert LogRows([Transition(U, Unbook, 0)], |logs|, SLOT, now) == [Notice(|logs|, 0, U, Unbook, now, false)];
  }

  lemma {:induction false} RowsOfU()
    ensures CastOf([Booking(SLOT, U, 0, 0)], SLOT) == One(U) && WithoutSlot([Booking(SLOT, U, 0, 0)], SLOT) == []
  {
    var rows := [Booking(SLOT, U, 0, 0)];
    assert rows[..0] == [];
    AtUniform(rows, SLOT, SLOT);
    SortAscending(rows);
  }

  /** A log in which only U appears, as a run of the job finds it. */
  predicate OnlyU(logs: seq<LogRow>) {
    && (forall i :: 0 <= i < |logs| ==> logs[i].id == i && logs[i].About(0, U))
    && About(logs, 0, U) == logs
  }

  /** The job tells U about the latest row, if it decides to. */
  lemma {:induction false} TellU(logs: seq<LogRow>, r: LogRow, st: State, now: int)
    requires st.tables.logs == logs + [r] && OnlyU(logs + [r]) && Upcoming(st, 0, now) && Mailable(st, U)
    ensures Decision(logs + [r], 0, U) == Some(r) ==>
              Notify(st, now).tables.logs == logs + [r.(notified := Some(now))]
    ensures Decision(logs + [r], 0, U) == None ==> Notify(st, now).tables.logs == logs + [r]
  {
    var all, ids := logs + [r], MarkedIds(st, now);
    forall x | x in all && Marks(st, x, now) ensures Decision(all, 0, U) == Some(x) {
      assert x.About(0, U);
    }
    if Decision(all, 0, U) == Some(r) {
      assert Marks(st, r, now);
      assert ids == {r.id};
      assert forall i :: 0 <= i < |logs| ==> all[i] == logs[i];
      assert Marked(all, ids, now) == logs + [r.(notified := Some(now))];
    } else if Decision(all, 0, U) == None {
      MarkedNone(all, {}, now);
    }
  }

  // ---- all goes well ------------------------------------------------------------------------

  function Booked(now: int, logs: seq<LogRow>): State {
    Prepared(false, now, CastTables([Booking(SLOT, U, 0, 0)], logs))
  }

  lemma {:induction false} BookedLegal(before: Trace)
    requires Legal(INITIAL, before) && After(INITIAL, before) == Prepared(false, 4, CastTables([], []))
    ensures var trace := before + [(SaveStep(0, BOOKING, []), 5)];
            && Legal(INITIAL, trace) && After(INITIAL, trace) == Booked(5, [] + [Notice(0, 0, U, Book, 5, false)])
  {
    var st := Prepared(false, 4, CastTables([], []));
    LegalInv(before);
    BookU([], st, 5);
    SingleSaveGood(st);
    GoodSaveStep(before, st, BOOKING, 5);
  }

  /** A legal history at whose end a user is booked and has been told so. */
  lemma {:induction false} UserIsBookedAndTold()
    ensures var trace := Preparation(false) + [(SaveStep(0, BOOKING, []), 5)];
            && Legal(INITIAL, trace)
            && Regular(After(INITIAL, trace).tables.bookings, After(INITIAL, trace).quantities, 0, U)
            && ToldBooked(After(INITIAL, trace + [(NotifyStep, 6)]).tables.logs, 0, U)
  {
    PreparationEnds(false);
    BookedLegal(Preparation(false));
    BookedIsTold(Preparation(false) + [(SaveStep(0, BOOKING, []), 5)], [] + [Notice(0, 0, U, Book, 5, false)]);
  }

  lemma {:induction false} BookedIsTold(trace: Trace, logs: seq<LogRow>)
    requires Legal(INITIAL, trace) && After(INITIAL, trace) == Booked(5, logs)
    ensures Regular(After(INITIAL, trace).tables.bookings, After(INITIAL, trace).quantities, 0, U)
    ensures ToldBooked(After(INITIAL, trace + [(NotifyStep, 6)]).tables.logs, 0, U)
  {
    LegalInv(trace);
    NotifyTellsTruth(After(INITIAL, trace), 6, 0, U);
    NotifyAppended(INITIAL, trace, 6);
  }

  lemma {:induction false} SingleSaveGood(st: State)
    requires st == Prepared(false, 4, CastTables([], [])) && Inv(st)
    ensures GoodSave(st, 0, BOOKING)
  {
    var changes := ChangesAre(false, BOOKING);
    BookU([], st, 5);
    OneChange(BOOKING);
    assert UsersIn(changes, 1) == {} && NoneTaken(changes[0].Cast(), {});
    assert forall u :: BookingOf([], 0, u).None?;
    AssumptionsSuffice(st, 0, BOOKING, 5);
  }

  // ---- two transactions at the same time ----------------------------------------------------

  lemma {:induction false} OnlyUTwo(a: LogRow, b: LogRow)
    requires a.id == 0 && a.About(0, U) && b.id == 1 && b.About(0, U)
    ensures OnlyU([a] + [b])
  {
    assert [a][..0] == [] && About([a], 0, U) == [a];
    assert ([a] + [b])[..1] == [a] && About([a] + [b], 0, U) == [a] + [b];
  }

  lemma {:induction false} FirstDecision(row: LogRow)
    requires row == Notice(0, 0, U, Book, 5, false)
    ensures OnlyU([] + [row]) && Decision([] + [row], 0, U) == Some(row)
  {
    assert ([] + [row])[..0] == [];
    assert Notified([] + [row]) == [];
  }

  lemma {:induction false} SecondDecision(told: LogRow, row: LogRow)
    requires told == Notice(0, 0, U, Book, 5, true) && row == Notice(1, 0, U, Unbook, 5, false)
    ensures OnlyU([told] + [row]) && Decision([told] + [row], 0, U) == Some(row)
    ensures Told([told], 0, U) == [told] && |About([told], 0, U)| == 1
  {
    OnlyUTwo(told, row);
    assert [told][..0] == [] && [] + [told] == [told] && ([told] + [row])[..1] == [told];
    assert Notified([told]) == [told];
    assert Notified([told] + [row]) == [told];
  }

  /** A run of the job at the end of a history tells U about the latest row. */
  lemma {:induction false} TellStep(before: Trace, logs: seq<LogRow>, r: LogRow, st: State, now: int)
    requires Possible(INITIAL, before) && After(INITIAL, before) == st && st.now <= now
    requires st.tables.logs == logs + [r] && OnlyU(logs + [r]) && Upcoming(st, 0, now) && Mailable(st, U)
    requires Decision(logs + [r], 0, U) == Some(r)
    ensures Possible(INITIAL, before + [(NotifyStep, now)])
    ensures After(INITIAL, before + [(NotifyStep, now)])
            == st.(now := now, tables := st.tables.(logs := logs + [r.(notified := Some(now))]))
    ensures Punctual(INITIAL, before + [(NotifyStep, now)]) ==> Punctual(INITIAL, before)
  {
    Continue(INITIAL, before, NotifyStep, now);
    TellNext(logs, r, st, now);
  }

  lemma {:induction false} TellNext(logs: seq<LogRow>, r: LogRow, st: State, now: int)
    requires st.tables.logs == logs + [r] && OnlyU(logs + [r]) && Upcoming(st, 0, now) && Mailable(st, U)
    requires Decision(logs + [r], 0, U) == Some(r)
    ensures Next(st, NotifyStep, now)
            == st.(now := now, tables := st.tables.(logs := logs + [r.(notified := Some(now))]))
  {
    TellU(logs, r, st, now);
    NotifyChangesLogs(st, now);
  }

  lemma {:induction false} NotifyChangesLogs(st: State, now: int)
    ensures Next(st, NotifyStep, now) == st.(now := now, tables := st.tables.(logs := Notify(st, now).tables.logs))
  {
  }

  /** Booked and told at time 5. */
  lemma {:induction false} FirstTold(before: Trace)
    requires Possible(INITIAL, before) && After(INITIAL, before) == Booked(5, [] + [Notice(0, 0, U, Book, 5, false)])
    ensures Possible(INITIAL, before + [(NotifyStep, 5)])
    ensures After(INITIAL, before + [(NotifyStep, 5)]) == Booked(5, [Notice(0, 0, U, Book, 5, true)])
  {
    var row := Notice(0, 0, U, Book, 5, false);
    FirstDecision(row);
    TellStep(before, [], row, Booked(5, [] + [row]), 5);
    assert [] + [row.(notified := Some(5))] == [Notice(0, 0, U, Book, 5, true)];
  }

  /** Taken off and told, at the same time. */
  lemma {:induction false} SecondTold(before: Trace)
    requires Possible(INITIAL, before) && After(INITIAL, before) == Booked(5, [Notice(0, 0, U, Book, 5, true)])
    ensures var trace := before + [(SaveStep(0, NOBODY, []), 5)] + [(NotifyStep, 5)];
            && Possible(INITIAL, trace) && !Punctual(INITIAL, trace)
            && After(INITIAL, trace)
               == Prepared(false, 5, CastTables([], [Notice(0, 0, U, Book, 5, true), Notice(1, 0, U, Unbook, 5, true)]))
  {
    var told, row := Notice(0, 0, U, Book, 5, true), Notice(1, 0, U, Unbook, 5, false);
    var saved := before + [(SaveStep(0, NOBODY, []), 5)];
    UnbookU([told], Booked(5, [told]), 5);
    Continue(INITIAL, before, SaveStep(0, NOBODY, []), 5);
    SecondDecision(told, row);
    assert !TimelyAbout([told], [told] + [row], 5, 0, U);
    TellStep(saved, [told], row, Prepared(false, 5, CastTables([], [told] + [row])), 5);
    assert [told] + [row.(notified := Some(5))] == [told, Notice(1, 0, U, Unbook, 5, true)];
  }

  /** Booked again a moment later. */
  lemma {:induction false} ThirdSave(before: Trace)
    requires Possible(INITIAL, before)
    requires After(INITIAL, before)
             == Prepared(false, 5, CastTables([], [Notice(0, 0, U, Book, 5, true), Notice(1, 0, U, Unbook, 5, true)]))
    ensures Possible(INITIAL, before + [(SaveStep(0, BOOKING, []), 6)])
    ensures Punctual(INITIAL, before + [(SaveStep(0, BOOKING, []), 6)]) ==> Punctual(INITIAL, before)
    ensures After(INITIAL, before + [(SaveStep(0, BOOKING, []), 6)]) == Booked(6, TiedRows(0, U, 5))
  {
    var logs := [Notice(0, 0, U, Book, 5, true), Notice(1, 0, U, Unbook, 5, true)];
    BookU(logs, Prepared(false, 5, CastTables([], logs)), 6);
    Continue(INITIAL, before, SaveStep(0, BOOKING, []), 6);
    assert logs + [Notice(2, 0, U, Book, 6, false)] == TiedRows(0, U, 5);
  }

  /** What a state with these rows looks like to the job. */
  predicate Misled(st: State, st': State) {
    && Upcoming(st, 0, 6) && Mailable(st, U)
    && Regular(st.tables.bookings, st.quantities, 0, U) && LoggedIn(st.tables.logs, 0, U)
    && Due(st.tables.logs, 0, U) && !LastNoticeFound(st.tables.logs, 0, U)
    && st'.tables == st.tables && !ToldBooked(st'.tables.logs, 0, U)
  }

  lemma {:induction false} TiedState()
    ensures Misled(Booked(6, TiedRows(0, U, 5)), Notify(Booked(6, TiedRows(0, U, 5)), 6))
  {
    var rows := TiedRows(0, U, 5);
    var logs, row := rows[..2], rows[2];
    assert rows == logs + [row];
    EqualTimesMislead(0, U, 5);
    AboutLast(rows, 0, U);
    TellU(logs, row, Booked(6, rows), 6);
  }

  /**
    A history of accepted saves and runs of the job, with two transactions at one time: the user holds a regular slot,
    the log says so, it is due a notice, and the next run of the job stays silent.
  */
  lemma {:induction false} TiedHistoryMisleads()
    ensures var trace := Preparation(false) + [(SaveStep(0, BOOKING, []), 5)] + [(NotifyStep, 5)]
                         + [(SaveStep(0, NOBODY, []), 5)] + [(NotifyStep, 5)] + [(SaveStep(0, BOOKING, []), 6)];
            && Possible(INITIAL, trace) && !Punctual(INITIAL, trace)
            && Misled(After(INITIAL, trace), After(INITIAL, trace + [(NotifyStep, 6)]))
  {
    var booked := Preparation(false) + [(SaveStep(0, BOOKING, []), 5)];
    PreparationEnds(false);
    BookedLegal(Preparation(false));
    FirstTold(booked);
    SecondTold(booked + [(NotifyStep, 5)]);
    var off := booked + [(NotifyStep, 5)] + [(SaveStep(0, NOBODY, []), 5)] + [(NotifyStep, 5)];
    ThirdSave(off);
    LastRun(off + [(SaveStep(0, BOOKING, []), 6)]);
  }

  lemma {:induction false} LastRun(trace: Trace)
    requires After(INITIAL, trace) == Booked(6, TiedRows(0, U, 5))
    ensures Misled(After(INITIAL, trace), After(INITIAL, trace + [(NotifyStep, 6)]))
  {
    Continue(INITIAL, trace, NotifyStep, 6);
    TiedState();
  }
}
