/**
  What the other service calls and jobs do to the invariant, call by call: soundness is kept whatever they are given;
  gap-free orders and a faithful log are kept as well, once they hold; and what the booking-status job relies on is
  kept exactly by transactions that are on time. Also here: the exact effect of a changed setup and of a cancellation
  on the tables, which the theorems over whole histories are put together from.
*/
module Preservation {
  import opened Positions
  import opened Tables
  import opened CastDiff
  import opened BookingLogs
  import opened SaveItem
  import opened ApplyChanges
  import opened CastSave
  import opened SetupChange
  import opened SelfService
  import opened Notices
  import opened NoticeSteps
  import opened Store
  import opened Invariant

  // ---- changing the setup -------------------------------------------------------------------

  lemma {:induction false} DesiredKeys(items: seq<SetupItem>, key: PositionKey)
    ensures key in Desired(items) <==> key in Keys(items)
  {
    if items != [] {
      DesiredKeys(items[..|items| - 1], key);
    }
  }

  /** Without repetitions every item determines the desired quantity of its position. */
  lemma {:induction false} DesiredAt(items: seq<SetupItem>, i: nat)
    requires NoDup(Keys(items)) && i < |items|
    ensures items[i].key in Desired(items) && Desired(items)[items[i].key] == items[i].quantity
  {
    var n := |items| - 1;
    if i < n {
      assert Keys(items)[..n] == Keys(items[..n]);
      DesiredAt(items[..n], i);
      NoDupPair(Keys(items), i, n);
    }
  }

  /** After _sync_positions the stored setup of the performance is exactly what was asked for; others are untouched. */
  lemma {:induction false} SyncExact(qs: Quantities, p: PerfId, items: seq<SetupItem>, slot: Slot)
    requires NoDup(Keys(items))
    ensures var qs' := Synced(qs, p, Desired(items));
            && (slot.perf != p ==> (slot in qs' <==> slot in qs) && QuantityAt(qs', slot) == QuantityAt(qs, slot))
            && (slot.perf == p ==> (slot in qs' <==> slot.key in Keys(items)))
            && (slot.perf == p && slot.key in Keys(items) ==>
                  qs'[slot] == items[IndexOf(Keys(items), slot.key)].quantity)
            && (slot.key in RemovedKeys(qs, p, Desired(items)) <==> Slot(p, slot.key) in qs && slot.key !in Keys(items))
  {
    DesiredKeys(items, slot.key);
    if slot.key in Keys(items) {
      DesiredAt(items, IndexOf(Keys(items), slot.key));
    }
    if Slot(p, slot.key) in qs && slot.key !in Desired(items) {
      assert Slot(p, slot.key).key == slot.key;
    }
  }

  lemma {:induction false} NoDupConcat<T>(a: seq<T>, b: seq<T>)
    requires NoDup(a) && NoDup(b) && forall i :: 0 <= i < |b| ==> b[i] !in a
    ensures NoDup(a + b)
  {
    if b == [] {
      assert a + b == a;
    } else {
      var n := |b| - 1;
      NoDupConcat(a, b[..n]);
      assert (a + b)[..|a| + n] == a + b[..n];
    }
  }

  /** The update passes all checks. */
  predicate Updates(st: State, p: PerfId, schedule: int, items: seq<SetupItem>, removed: seq<PositionKey>, now: int) {
    && p in st.schedule && st.schedule[p] >= now && schedule >= TomorrowStart(now) && ValidSetup(st, items)
    && Enumerates(removed, RemovedKeys(st.quantities, p, Desired(items)))
  }

  function NewQuantities(st: State, p: PerfId, items: seq<SetupItem>): Quantities {
    Synced(st.quantities, p, Desired(items))
  }

  function NewSetup(st: State, p: PerfId, items: seq<SetupItem>): seq<SetupItem> {
    ItemsAmong(Order(st.catalog), NewQuantities(st, p, items), p)
  }

  function UpdateChanges(st: State, p: PerfId, items: seq<SetupItem>, removed: seq<PositionKey>): seq<Change> {
    AllChanges(st.tables.bookings, p, removed, NewSetup(st, p, items), st.quantities)
  }

  lemma {:induction false} NewSetupKeys(st: State, p: PerfId, items: seq<SetupItem>, key: PositionKey)
    requires References(st) && ValidSetup(st, items)
    ensures key in Keys(NewSetup(st, p, items)) <==> key in Keys(items)
  {
    ItemsAmongKeys(Order(st.catalog), NewQuantities(st, p, items), p, key);
    SyncExact(st.quantities, p, items, Slot(p, key));
    if key in Keys(items) {
      assert items[IndexOf(Keys(items), key)].key in Order(st.catalog);
    }
  }

  lemma {:induction false} UpdateApart(st: State, p: PerfId, schedule: int, items: seq<SetupItem>,
                                       removed: seq<PositionKey>, now: int)
    requires References(st) && Updates(st, p, schedule, items, removed, now)
    ensures Apart(removed, NewSetup(st, p, items))
  {
    var setup := NewSetup(st, p, items);
    ItemsAmongOk(Order(st.catalog), NewQuantities(st, p, items), p);
    forall i | 0 <= i < |Keys(setup)| ensures Keys(setup)[i] !in removed {
      NewSetupKeys(st, p, items, Keys(setup)[i]);
      SyncExact(st.quantities, p, items, Slot(p, Keys(setup)[i]));
    }
    NoDupConcat(removed, Keys(setup));
  }

  lemma {:induction false} PurgeQuantities(qs: Quantities, p: PerfId, removed: seq<PositionKey>, slot: Slot)
    ensures QuantityAt(RunQuantities(qs, PurgeChanges(p, removed)), slot)
            == if slot.perf == p && slot.key in removed then 0 else QuantityAt(qs, slot)
  {
    if removed != [] {
      var init := removed[..|removed| - 1];
      assert removed == init + [removed[|removed| - 1]];
      assert Init(PurgeChanges(p, removed)) == PurgeChanges(p, init);
      PurgeQuantities(qs, p, init, slot);
    }
  }

  lemma {:induction false} AllQuantities(rows: seq<Booking>, qs: Quantities, p: PerfId, removed: seq<PositionKey>,
                                         items: seq<SetupItem>, oldQs: Quantities, newQs: Quantities, slot: Slot)
    requires forall i :: 0 <= i < |items| ==>
               Slot(p, items[i].key) in newQs && items[i].quantity == newQs[Slot(p, items[i].key)]
    ensures QuantityAt(RunQuantities(qs, AllChanges(rows, p, removed, items, oldQs)), slot)
            == if slot.perf == p && slot.key in Keys(items) then QuantityAt(newQs, slot)
               else if slot.perf == p && slot.key in removed then 0
               else QuantityAt(qs, slot)
  {
    if items == [] {
      assert AllChanges(rows, p, removed, items, oldQs) == PurgeChanges(p, removed);
      PurgeQuantities(qs, p, removed, slot);
    } else {
      AllChangesInit(rows, p, removed, items, oldQs);
      AllQuantities(rows, qs, p, removed, items[..|items| - 1], oldQs, newQs, slot);
    }
  }

  /** Judging the changes one after the other ends with the quantities of the new setup. */
  lemma {:induction false} UpdateQuantities(st: State, p: PerfId, schedule: int, items: seq<SetupItem>,
                                            removed: seq<PositionKey>, now: int, slot: Slot)
    requires References(st) && Updates(st, p, schedule, items, removed, now)
    ensures QuantityAt(RunQuantities(st.quantities, UpdateChanges(st, p, items, removed)), slot)
            == QuantityAt(NewQuantities(st, p, items), slot)
  {
    var setup := NewSetup(st, p, items);
    ItemsAmongOk(Order(st.catalog), NewQuantities(st, p, items), p);
    AllQuantities(st.tables.bookings, st.quantities, p, removed, setup, st.quantities, NewQuantities(st, p, items),
                  slot);
    SyncExact(st.quantities, p, items, slot);
    NewSetupKeys(st, p, items, slot.key);
  }

  lemma {:induction false} StandingUsers(rows: seq<Booking>, oldQs: Quantities, changes: seq<Change>, p: PerfId,
                                         users: set<UserId>)
    requires WellFormed(changes, p) && AllStanding(rows, oldQs, changes) && UniqueBookings(rows) && Ordered(rows)
    requires forall b :: b in rows ==> b.user in users
    ensures UsersIn(changes, 0) <= users
  {
    if changes != [] {
      var c := Last(changes);
      StandingUsers(rows, oldQs, Init(changes), p, users);
      forall u | u in UsersOf(c.Cast()) ensures u in users {
        CastIndex(rows, c.slot, u);
      }
    }
  }

  /** The cast rows of each position after an update. */
  lemma {:induction false} UpdateRows(st: State, p: PerfId, schedule: int, items: seq<SetupItem>,
                                      removed: seq<PositionKey>, now: int, slot: Slot)
    requires Sound(st) && Updates(st, p, schedule, items, removed, now)
    ensures At(RunRows(st.tables.bookings, UpdateChanges(st, p, items, removed)), slot)
            == if slot.perf != p then At(st.tables.bookings, slot)
               else if slot.key in removed then []
               else NewRows(slot, CastOf(st.tables.bookings, slot))
    ensures slot.perf == p && slot !in NewQuantities(st, p, items) ==>
              At(RunRows(st.tables.bookings, UpdateChanges(st, p, items, removed)), slot) == []
  {
    var rows := st.tables.bookings;
    UpdateApart(st, p, schedule, items, removed, now);
    ReconcileRows(rows, p, removed, NewSetup(st, p, items), st.quantities, slot);
    SyncExact(st.quantities, p, items, slot);
    NewSetupKeys(st, p, items, slot.key);
    if slot !in st.quantities {
      AtNone(rows, slot);
      assert CastOf(rows, slot) == [] && NewRows(slot, []) == [];
    }
  }

  lemma {:induction false} UpdateOnSetup(st: State, p: PerfId, schedule: int, items: seq<SetupItem>,
                                         removed: seq<PositionKey>, now: int)
    requires Sound(st) && Updates(st, p, schedule, items, removed, now)
    ensures OnSetup(RunRows(st.tables.bookings, UpdateChanges(st, p, items, removed)), NewQuantities(st, p, items))
  {
    var after := RunRows(st.tables.bookings, UpdateChanges(st, p, items, removed));
    forall b | b in after ensures b.slot in NewQuantities(st, p, items) {
      AtMember(after, b.slot, b);
      UpdateRows(st, p, schedule, items, removed, now, b.slot);
      AtMember(st.tables.bookings, b.slot, b);
      SyncExact(st.quantities, p, items, b.slot);
    }
  }

  /** Whoever is booked after an update was booked on that position before, at the same place or further back. */
  lemma {:induction false} UpdateFalls(st: State, p: PerfId, schedule: int, items: seq<SetupItem>,
                                       removed: seq<PositionKey>, now: int, q: PerfId, u: UserId)
    requires Sound(st) && Updates(st, p, schedule, items, removed, now)
    ensures var after := RunRows(st.tables.bookings, UpdateChanges(st, p, items, removed));
            NotForward(BookingOf(st.tables.bookings, q, u), BookingOf(after, q, u))
  {
    var rows := st.tables.bookings;
    var after := RunRows(rows, UpdateChanges(st, p, items, removed));
    if BookingOf(after, q, u).Some? {
      var x' := BookingOf(after, q, u).value;
      AtMember(after, x'.slot, x');
      UpdateRows(st, p, schedule, items, removed, now, x'.slot);
      RenumberedRow(rows, x'.slot, At(after, x'.slot), x');
    }
  }

  /** A booking afterwards continues one from before, on the same position, no further back. */
  predicate NotForward(before: Option<Booking>, after: Option<Booking>) {
    after.Some? ==> before.Some? && after.value.slot == before.value.slot && after.value.order <= before.value.order
  }

  lemma {:induction false} RenumberedRow(rows: seq<Booking>, slot: Slot, mine: seq<Booking>, x: Booking)
    requires UniqueBookings(rows) && Ordered(rows) && x in mine && x.slot == slot
    requires mine == At(rows, slot) || mine == NewRows(slot, CastOf(rows, slot))
    ensures NotForward(BookingOf(rows, slot.perf, x.user), Some(x))
  {
    var here := At(rows, slot);
    var i :| 0 <= i < |mine| && mine[i] == x;
    CastOfOrdered(rows, slot);
    BookingOfUnique(rows, here[i]);
    AscendingOrder(here, i);
  }

  lemma {:induction false} UpdateAgree(st: State, p: PerfId, schedule: int, items: seq<SetupItem>,
                                       removed: seq<PositionKey>, now: int, q: PerfId, u: UserId)
    requires Sound(st) && GapFree(st.tables.bookings) && Faithful(st)
    requires Updates(st, p, schedule, items, removed, now)
    ensures Agree(Reconcile(st.tables, p, removed, NewSetup(st, p, items), st.quantities, now),
                  NewQuantities(st, p, items), q, u)
  {
    var setup := NewSetup(st, p, items);
    UpdateApart(st, p, schedule, items, removed, now);
    assert Agree(st.tables, st.quantities, q, u);
    ReconcileAgree(st.tables, p, removed, setup, st.quantities, now, q, u);
    var after := Reconcile(st.tables, p, removed, setup, st.quantities, now).bookings;
    if BookingOf(after, q, u).Some? {
      UpdateQuantities(st, p, schedule, items, removed, now, BookingOf(after, q, u).value.slot);
    }
  }

  lemma {:induction false} UpdateKeeps(st: State, p: PerfId, schedule: int, items: seq<SetupItem>,
                                       removed: seq<PositionKey>, now: int)
    requires Sound(st) && st.now <= now && Updates(st, p, schedule, items, removed, now)
    ensures var tables := Reconcile(st.tables, p, removed, NewSetup(st, p, items), st.quantities, now);
            && tables == Run(st.tables, UpdateChanges(st, p, items, removed), now)
            && tables.bookings == RunRows(st.tables.bookings, UpdateChanges(st, p, items, removed))
            && References(st.(tables := tables)) && Ordered(tables.bookings) && Stamped(tables.logs, now)
  {
    var setup, changes := NewSetup(st, p, items), UpdateChanges(st, p, items, removed);
    UpdateApart(st, p, schedule, items, removed, now);
    ReconcileIsRun(st.tables, p, removed, setup, st.quantities, now);
    RunBookings(st.tables, changes, now);
    AllWellFormed(st.tables.bookings, p, removed, setup, st.quantities);
    ChangesStanding(st.tables.bookings, p, removed, setup, st.quantities, Slot(p, PositionKey(Instruments, 0)));
    StandingUsers(st.tables.bookings, st.quantities, changes, p, st.verified.Keys);
    RunKeeps(st, changes, p, now);
  }

  lemma {:induction false} UpdateReferences(st: State, p: PerfId, items: seq<SetupItem>, slot: Slot)
    requires References(st) && p in st.schedule && ValidSetup(st, items)
    ensures slot in NewQuantities(st, p, items) ==> slot.perf in st.schedule && slot.key in Order(st.catalog)
  {
    SyncExact(st.quantities, p, items, slot);
    if slot.perf == p && slot.key in Keys(items) {
      assert items[IndexOf(Keys(items), slot.key)].key in Order(st.catalog);
    }
  }

  lemma {:induction false} UpdateSound(st: State, p: PerfId, schedule: int, items: seq<SetupItem>,
                                       removed: seq<PositionKey>, now: int)
    requires Sound(st) && st.now <= now && Updates(st, p, schedule, items, removed, now)
    ensures UpdatePerformance(st, p, schedule, items, removed, now).1 == Done
    ensures Sound(UpdatePerformance(st, p, schedule, items, removed, now).0)
  {
    var st' := UpdatePerformance(st, p, schedule, items, removed, now).0;
    UpdateKeeps(st, p, schedule, items, removed, now);
    UpdateOnSetup(st, p, schedule, items, removed, now);
    forall slot | slot in st'.quantities ensures slot.perf in st'.schedule && slot.key in Order(st'.catalog) {
      UpdateReferences(st, p, items, slot);
    }
    assert References(st');
    forall k | k in st'.requests && st'.requests[k] ensures BookingOf(st'.tables.bookings, k.0, k.1).None? {
      UpdateFalls(st, p, schedule, items, removed, now, k.0, k.1);
    }
  }

  lemma {:induction false} UpdateGapFree(st: State, p: PerfId, schedule: int, items: seq<SetupItem>,
                                         removed: seq<PositionKey>, now: int)
    requires Sound(st) && GapFree(st.tables.bookings) && Updates(st, p, schedule, items, removed, now)
    ensures GapFree(RunRows(st.tables.bookings, UpdateChanges(st, p, items, removed)))
  {
    var after := RunRows(st.tables.bookings, UpdateChanges(st, p, items, removed));
    forall slot ensures Contiguous(At(after, slot)) {
      UpdateRows(st, p, schedule, items, removed, now, slot);
      NewRowsContiguous(slot, CastOf(st.tables.bookings, slot));
    }
  }

  lemma {:induction false} UpdateFaithful(st: State, p: PerfId, schedule: int, items: seq<SetupItem>,
                                          removed: seq<PositionKey>, now: int)
    requires Sound(st) && GapFree(st.tables.bookings) && Faithful(st)
    requires Updates(st, p, schedule, items, removed, now)
    ensures Faithful(UpdatePerformance(st, p, schedule, items, removed, now).0)
  {
    var st' := UpdatePerformance(st, p, schedule, items, removed, now).0;
    forall q, u ensures Agree(st'.tables, st'.quantities, q, u) {
      UpdateAgree(st, p, schedule, items, removed, now, q, u);
    }
  }

  lemma {:induction false} UpdateInv(st: State, p: PerfId, schedule: int, items: seq<SetupItem>,
                                     removed: seq<PositionKey>, now: int)
    requires Inv(st) && st.now <= now && Updates(st, p, schedule, items, removed, now)
    ensures var (st', outcome) := UpdatePerformance(st, p, schedule, items, removed, now);
            outcome == Done && (Inv(st') <==> Timely(st.tables.logs, st'.tables.logs, now))
  {
    var st' := UpdatePerformance(st, p, schedule, items, removed, now).0;
    UpdateSound(st, p, schedule, items, removed, now);
    UpdateKeeps(st, p, schedule, items, removed, now);
    UpdateGapFree(st, p, schedule, items, removed, now);
    UpdateFaithful(st, p, schedule, items, removed, now);
    RunNotices(st.tables, UpdateChanges(st, p, items, removed), now);
  }

  /**
    A changed setup is exact. The stored setup is the one asked for; removed positions are emptied and every other
    cast of the performance is kept, numbered from 0, which changes no row if there were no gaps; and the log grows by
    what SetupChange.Entitled says, position by position: everyone on a removed position is unbooked, and on a kept
    one those between the old and the new quantity change sides.
  */
  lemma {:induction false} UpdateExact(st: State, p: PerfId, schedule: int, items: seq<SetupItem>,
                                       removed: seq<PositionKey>, now: int, slot: Slot)
    requires Sound(st) && st.now <= now && Updates(st, p, schedule, items, removed, now)
    ensures var st' := UpdatePerformance(st, p, schedule, items, removed, now).0;
            && st'.quantities == Synced(st.quantities, p, Desired(items))
            && At(st'.tables.bookings, slot)
               == (if slot.perf != p then At(st.tables.bookings, slot)
                   else if slot.key in removed then []
                   else NewRows(slot, CastOf(st.tables.bookings, slot)))
            && (GapFree(st.tables.bookings)
                ==> NewRows(slot, CastOf(st.tables.bookings, slot)) == At(st.tables.bookings, slot))
            && st'.tables.logs == SetupLog(st.tables.logs, st.tables.bookings, UpdateChanges(st, p, items, removed),
                                           now)
  {
    UpdateCasts(st, p, schedule, items, removed, now, slot);
    UpdateKeeps(st, p, schedule, items, removed, now);
    UpdateLog(st, p, schedule, items, removed, now);
  }

  lemma {:induction false} UpdateCasts(st: State, p: PerfId, schedule: int, items: seq<SetupItem>,
                                       removed: seq<PositionKey>, now: int, slot: Slot)
    requires Sound(st) && st.now <= now && Updates(st, p, schedule, items, removed, now)
    ensures At(UpdatePerformance(st, p, schedule, items, removed, now).0.tables.bookings, slot)
            == if slot.perf != p then At(st.tables.bookings, slot)
               else if slot.key in removed then []
               else NewRows(slot, CastOf(st.tables.bookings, slot))
    ensures GapFree(st.tables.bookings)
            ==> NewRows(slot, CastOf(st.tables.bookings, slot)) == At(st.tables.bookings, slot)
  {
    UpdateKeeps(st, p, schedule, items, removed, now);
    UpdateRows(st, p, schedule, items, removed, now, slot);
    if GapFree(st.tables.bookings) {
      RenumberedSame(st.tables.bookings, slot);
    }
  }

  lemma {:induction false} UpdateLog(st: State, p: PerfId, schedule: int, items: seq<SetupItem>,
                                     removed: seq<PositionKey>, now: int)
    requires Sound(st) && Updates(st, p, schedule, items, removed, now)
    ensures var changes := UpdateChanges(st, p, items, removed);
            Run(st.tables, changes, now).logs == SetupLog(st.tables.logs, st.tables.bookings, changes, now)
  {
    var setup := NewSetup(st, p, items);
    UpdateApart(st, p, schedule, items, removed, now);
    AllWellFormed(st.tables.bookings, p, removed, setup, st.quantities);
    ChangesStanding(st.tables.bookings, p, removed, setup, st.quantities, Slot(p, PositionKey(Instruments, 0)));
    StandingLog(st.tables, st.quantities, UpdateChanges(st, p, items, removed), p, now);
  }

  // ---- creating and deleting performances ---------------------------------------------------

  lemma {:induction false} CreateSound(st: State, p: PerfId, schedule: int, items: seq<SetupItem>, now: int)
    requires Sound(st) && st.now <= now && p !in st.schedule
    ensures Sound(CreatePerformance(st, p, schedule, items, now).0)
    ensures CreatePerformance(st, p, schedule, items, now).0.tables == st.tables
    ensures forall b :: b in st.tables.bookings ==>
              QuantityAt(CreatePerformance(st, p, schedule, items, now).0.quantities, b.slot)
                == QuantityAt(st.quantities, b.slot)
  {
    var (st', outcome) := CreatePerformance(st, p, schedule, items, now);
    if outcome == Done {
      forall slot ensures slot in st'.quantities ==> slot.perf in st'.schedule && slot.key in Order(st'.catalog) {
        SyncExact(st.quantities, p, items, slot);
        if slot.perf == p && slot.key in Keys(items) {
          assert items[IndexOf(Keys(items), slot.key)].key in Order(st.catalog);
        }
      }
      assert References(st');
      forall b | b in st.tables.bookings
        ensures b.slot in st'.quantities && QuantityAt(st'.quantities, b.slot) == QuantityAt(st.quantities, b.slot)
      {
        SyncExact(st.quantities, p, items, b.slot);
      }
      StampedLater(st.tables.logs, st.now, now);
    }
  }

  lemma {:induction false} CreateFaithful(st: State, p: PerfId, schedule: int, items: seq<SetupItem>, now: int)
    requires Sound(st) && Faithful(st) && st.now <= now && p !in st.schedule
    ensures Faithful(CreatePerformance(st, p, schedule, items, now).0)
  {
    var st' := CreatePerformance(st, p, schedule, items, now).0;
    CreateSound(st, p, schedule, items, now);
    forall q, u ensures Agree(st'.tables, st'.quantities, q, u) {
      assert Agree(st.tables, st.quantities, q, u);
    }
  }

  lemma {:induction false} CreateInv(st: State, p: PerfId, schedule: int, items: seq<SetupItem>, now: int)
    requires Inv(st) && st.now <= now && p !in st.schedule
    ensures Inv(CreatePerformance(st, p, schedule, items, now).0)
  {
    CreateSound(st, p, schedule, items, now);
    CreateFaithful(st, p, schedule, items, now);
  }

  lemma {:induction false} OrphanedPerf(logs: seq<LogRow>, p: PerfId, r: LogRow)
    requires r in Orphaned(logs, p)
    ensures r.perf.Some? ==> r.perf != Some(p) && r in logs
  {
    if logs != [] {
      var init := Orphaned(logs[..|logs| - 1], p);
      if r in init {
        OrphanedPerf(logs[..|logs| - 1], p, r);
      }
    }
  }

  lemma {:induction false} DeleteFaithful(st: State, p: PerfId, now: int, q: PerfId, u: UserId)
    requires Faithful(st) && DeletePerformance(st, p, now).1 == Done
    ensures var st' := DeletePerformance(st, p, now).0;
            Agree(st'.tables, st'.quantities, q, u)
  {
    assert Agree(st.tables, st.quantities, q, u);
    OrphanedNoticesOk(st.tables.logs, p, q, u);
    var b := BookingOf(st.tables.bookings, q, u);
    if b.Some? {
      assert b.value in st.tables.bookings && q != p;
      var slot := b.value.slot;
      assert QuantityAt(DeletePerformance(st, p, now).0.quantities, slot) == QuantityAt(st.quantities, slot);
    }
  }

  lemma {:induction false} DeleteReferences(st: State, p: PerfId, now: int)
    requires Sound(st)
    ensures References(DeletePerformance(st, p, now).0)
  {
    var (st', outcome) := DeletePerformance(st, p, now);
    if outcome == Done {
      forall r | r in st'.tables.logs && r.perf.Some? ensures r.perf.value in st'.schedule {
        OrphanedPerf(st.tables.logs, p, r);
      }
    }
  }

  lemma {:induction false} DeleteSound(st: State, p: PerfId, now: int)
    requires Sound(st) && st.now <= now
    ensures Sound(DeletePerformance(st, p, now).0)
  {
    DeleteReferences(st, p, now);
    OrphanedStamped(st.tables.logs, p, st.now);
    StampedLater(Orphaned(st.tables.logs, p), st.now, now);
  }

  lemma {:induction false} DeleteInv(st: State, p: PerfId, now: int)
    requires Inv(st) && st.now <= now
    ensures Inv(DeletePerformance(st, p, now).0)
  {
    var (st', outcome) := DeletePerformance(st, p, now);
    DeleteSound(st, p, now);
    if outcome == Done {
      forall q, u ensures Agree(st'.tables, st'.quantities, q, u) && NoticesOk(st'.tables.logs, q, u) {
        DeleteFaithful(st, p, now, q, u);
        assert NoticesOk(st.tables.logs, q, u);
        OrphanedNoticesOk(st.tables.logs, p, q, u);
      }
    }
  }

  // ---- self service -------------------------------------------------------------------------

  /** What is left of another booking x after b was cancelled: it moves up by one if it stood behind b. */
  function MovedUp(x: Booking, b: Booking): Booking {
    if x.slot == b.slot && x.order > b.order then x.(order := x.order - 1) else x
  }

  /** In a gap-free table a row stands at the index its order says. */
  lemma {:induction false} OrderIndex(rows: seq<Booking>, x: Booking) returns (i: nat)
    requires GapFree(rows) && x in rows
    ensures i == x.order && i < |At(rows, x.slot)| && At(rows, x.slot)[i] == x
  {
    AtMember(rows, x.slot, x);
    i :| 0 <= i < |At(rows, x.slot)| && At(rows, x.slot)[i] == x;
    ContiguousOrder(At(rows, x.slot), i);
  }

  lemma {:induction false} CancelNotForward(st: State, b: Booking, now: int, p: PerfId, u: UserId)
    requires Sound(st) && b in st.tables.bookings
    ensures var after := CancelBooking(st.tables, st.quantities, b.slot.perf, b.user, now).bookings;
            && NotForward(BookingOf(st.tables.bookings, p, u), BookingOf(after, p, u))
            && (p == b.slot.perf && u == b.user ==> BookingOf(after, p, u).None?)
  {
    BookingOfUnique(st.tables.bookings, b);
    CancelEach(st.tables, st.quantities, b, now, p, u);
    CastIndex(st.tables.bookings, b.slot, u);
  }

  /** The bookings after a cancellation, user by user: the canceller's is gone, those behind it moved up by one. */
  lemma {:induction false} CancelBookingOf(st: State, b: Booking, now: int, p: PerfId, u: UserId)
    requires Sound(st) && GapFree(st.tables.bookings) && b in st.tables.bookings
    ensures var rows := CancelBooking(st.tables, st.quantities, b.slot.perf, b.user, now).bookings;
            var (before, after) := (BookingOf(st.tables.bookings, p, u), BookingOf(rows, p, u));
            after == if before.None? || before.value == b then None else Some(MovedUp(before.value, b))
  {
    var x := BookingOf(st.tables.bookings, p, u);
    CancelEach(st.tables, st.quantities, b, now, p, u);
    if x.Some? && x.value != b && x.value.slot == b.slot {
      MovedIndex(st.tables.bookings, b, x.value);
    }
  }

  lemma {:induction false} MovedIndex(rows: seq<Booking>, b: Booking, x: Booking)
    requires UniqueBookings(rows) && GapFree(rows) && b in rows && x in rows && x.slot == b.slot && x != b
    ensures var ids := Ids(CastOf(rows, b.slot));
            b.user in ids && x.user in ids && MovedUp(x, b) == x.(order := IndexWithout(ids, b.user, x.user))
  {
    OrderInCast(rows, b);
    OrderInCast(rows, x);
    SameOrderSameRow(rows, b, x);
  }

  /** In a gap-free table the order is the index in the cast list. */
  lemma {:induction false} OrderInCast(rows: seq<Booking>, x: Booking)
    requires UniqueBookings(rows) && GapFree(rows) && x in rows
    ensures x.user in Ids(CastOf(rows, x.slot)) && IndexOf(Ids(CastOf(rows, x.slot)), x.user) == x.order
  {
    GapFreeOrdered(rows);
    BookingOfUnique(rows, x);
    CastIndex(rows, x.slot, x.user);
    CastOfOrdered(rows, x.slot);
    ContiguousOrder(At(rows, x.slot), IndexOf(Ids(CastOf(rows, x.slot)), x.user));
  }

  lemma {:induction false} SameOrderSameRow(rows: seq<Booking>, x: Booking, y: Booking)
    requires GapFree(rows) && x in rows && y in rows
    ensures x.slot == y.slot && x.order == y.order ==> x == y
  {
    var i := OrderIndex(rows, x);
    var j := OrderIndex(rows, y);
  }

  lemma {:induction false} CancelGapFree(st: State, b: Booking, now: int)
    requires Sound(st) && GapFree(st.tables.bookings) && b in st.tables.bookings
    ensures GapFree(CancelBooking(st.tables, st.quantities, b.slot.perf, b.user, now).bookings)
  {
    var t := st.tables;
    forall slot ensures Contiguous(At(CancelBooking(t, st.quantities, b.slot.perf, b.user, now).bookings, slot)) {
      CancelAt(t, st.quantities, b, now, slot);
      NewRowsContiguous(slot, RemoveAt(CastOf(t.bookings, b.slot), b.order));
    }
  }

  lemma {:induction false} CancelOnSetup(st: State, b: Booking, now: int)
    requires Sound(st) && b in st.tables.bookings
    ensures OnSetup(CancelBooking(st.tables, st.quantities, b.slot.perf, b.user, now).bookings, st.quantities)
  {
    var after := CancelBooking(st.tables, st.quantities, b.slot.perf, b.user, now).bookings;
    forall x | x in after ensures x.slot in st.quantities {
      AtMember(after, x.slot, x);
      CancelRows(st.tables, st.quantities, b, now, x.slot);
      if x.slot != b.slot {
        AtMember(st.tables.bookings, x.slot, x);
      }
    }
  }

  /** The users a cancellation lists again are users of the database. */
  lemma {:induction false} CancelUsers(st: State, b: Booking)
    requires Sound(st) && b in st.tables.bookings
    ensures UsersIn([CancelChange(st.tables.bookings, st.quantities, b)], 0) <= st.verified.Keys
  {
    var rows := st.tables.bookings;
    var c := CancelChange(rows, st.quantities, b);
    var k := CancelIndex(rows, b);
    RemainingCast(rows, b.slot, b.user);
    RemovedUsers(CastOf(rows, b.slot), k);
    assert Init([c]) == [] && Last([c]) == c;
    forall u | u in UsersOf(c.Cast()) ensures u in st.verified {
      assert u in UsersOf(CastOf(rows, b.slot));
      CastIndex(rows, b.slot, u);
    }
  }

  lemma {:induction false} CancelKeeps(st: State, b: Booking, now: int)
    requires Sound(st) && st.now <= now && b in st.tables.bookings
    ensures var tables := CancelBooking(st.tables, st.quantities, b.slot.perf, b.user, now);
            && tables == Run(st.tables, [CancelChange(st.tables.bookings, st.quantities, b)], now)
            && References(st.(tables := tables)) && Ordered(tables.bookings) && Stamped(tables.logs, now)
  {
    BookingOfUnique(st.tables.bookings, b);
    CancelFits(st.tables.bookings, st.quantities, b);
    CancelUsers(st, b);
    RunKeeps(st, [CancelChange(st.tables.bookings, st.quantities, b)], b.slot.perf, now);
  }

  /** The state after a toggle that leaves the cast alone. */
  function WithRequests(st: State, requests: map<RequestKey, bool>, now: int): State {
    st.(now := now, requests := requests)
  }

  /** The state after a toggle that gives up a booking. */
  function Cancelled(st: State, p: PerfId, u: UserId, now: int): State {
    st.(now := now, requests := st.requests - {(p, u)}, tables := CancelBooking(st.tables, st.quantities, p, u, now))
  }

  lemma {:induction false} CancelSound(st: State, b: Booking, now: int)
    requires Sound(st) && st.now <= now && b in st.tables.bookings
    ensures Sound(Cancelled(st, b.slot.perf, b.user, now))
  {
    var st' := Cancelled(st, b.slot.perf, b.user, now);
    CancelKeeps(st, b, now);
    CancelOnSetup(st, b, now);
    assert References(st');
    forall k | k in st'.requests && st'.requests[k] ensures BookingOf(st'.tables.bookings, k.0, k.1).None? {
      assert st.requests[k];
      CancelNotForward(st, b, now, k.0, k.1);
    }
  }

  lemma {:induction false} CancelFaithful(st: State, b: Booking, now: int)
    requires Sound(st) && GapFree(st.tables.bookings) && Faithful(st) && b in st.tables.bookings
    ensures Faithful(Cancelled(st, b.slot.perf, b.user, now))
  {
    var st' := Cancelled(st, b.slot.perf, b.user, now);
    forall p, u ensures Agree(st'.tables, st'.quantities, p, u) {
      assert Agree(st.tables, st.quantities, p, u);
      CancelAgree(st.tables, st.quantities, b, now, p, u);
    }
  }

  lemma {:induction false} CancelInv(st: State, b: Booking, now: int)
    requires Inv(st) && st.now <= now && b in st.tables.bookings
    ensures var st' := Cancelled(st, b.slot.perf, b.user, now);
            Inv(st') <==> Timely(st.tables.logs, st'.tables.logs, now)
  {
    var st' := Cancelled(st, b.slot.perf, b.user, now);
    CancelSound(st, b, now);
    CancelKeeps(st, b, now);
    CancelGapFree(st, b, now);
    CancelFaithful(st, b, now);
    RunNotices(st.tables, [CancelChange(st.tables.bookings, st.quantities, b)], now);
  }

  /** Adding requests, or dropping some, breaks nothing. */
  lemma {:induction false} RequestsSound(st: State, requests: map<RequestKey, bool>, now: int)
    requires Sound(st) && st.now <= now
    requires forall k :: k in requests ==> k.0 in st.schedule && k.1 in st.verified
    requires forall k :: k in requests && requests[k] ==> k in st.requests && st.requests[k]
    ensures Sound(WithRequests(st, requests, now))
    ensures Inv(st) ==> Inv(WithRequests(st, requests, now))
  {
    StampedLater(st.tables.logs, st.now, now);
    assert References(WithRequests(st, requests, now));
    if Inv(st) {
      assert Faithful(WithRequests(st, requests, now));
    }
  }

  lemma {:induction false} ToggleCases(st: State, p: PerfId, u: UserId, now: int)
    ensures var st' := Toggle(st, p, u, now).0;
            || st' == st || st' == WithRequests(st, st.requests, now)
            || (p in st.schedule && st' == WithRequests(st, st.requests[(p, u) := false], now))
            || (BookingOf(st.tables.bookings, p, u).None? && st' == WithRequests(st, st.requests - {(p, u)}, now))
            || (BookingOf(st.tables.bookings, p, u).Some? && st' == Cancelled(st, p, u, now))
  {
  }

  lemma {:induction false} ToggleSound(st: State, p: PerfId, u: UserId, now: int)
    requires Sound(st) && st.now <= now && u in st.verified
    ensures Sound(Toggle(st, p, u, now).0)
  {
    ToggleCases(st, p, u, now);
    RequestsSound(st, st.requests, now);
    RequestsSound(st, st.requests - {(p, u)}, now);
    if p in st.schedule {
      RequestsSound(st, st.requests[(p, u) := false], now);
    }
    if BookingOf(st.tables.bookings, p, u).Some? {
      CancelSound(st, BookingOf(st.tables.bookings, p, u).value, now);
    }
  }

  lemma {:induction false} ToggleInv(st: State, p: PerfId, u: UserId, now: int)
    requires Inv(st) && st.now <= now && u in st.verified
    ensures Inv(Toggle(st, p, u, now).0) <==> Timely(st.tables.logs, Toggle(st, p, u, now).0.tables.logs, now)
  {
    ToggleCases(st, p, u, now);
    RequestsSound(st, st.requests, now);
    RequestsSound(st, st.requests - {(p, u)}, now);
    if p in st.schedule {
      RequestsSound(st, st.requests[(p, u) := false], now);
    }
    if BookingOf(st.tables.bookings, p, u).Some? {
      CancelInv(st, BookingOf(st.tables.bookings, p, u).value, now);
    }
  }

  // ---- scheduled jobs -----------------------------------------------------------------------

  /** The job marks, about each user and performance, at most the row it decided on. */
  lemma {:induction false} NotifyMarksDecided(st: State, now: int, p: PerfId, u: UserId)
    requires Stamped(st.tables.logs, st.now)
    ensures MarksDecided(st.tables.logs, MarkedIds(st, now), p, u)
  {
    var logs := st.tables.logs;
    forall r | r in About(logs, p, u) && r.id in MarkedIds(st, now) ensures Decision(logs, p, u) == Some(r) {
      var x :| x in logs && Marks(st, x, now) && x.id == r.id;
      AboutMember(logs, p, u, r);
      SameId(logs, st.now, x, r);
    }
  }

  /** And it marks that row if the user can be mailed and the performance is still to come. */
  lemma {:induction false} NotifyMarksAll(st: State, now: int, p: PerfId, u: UserId)
    requires Upcoming(st, p, now) && Mailable(st, u)
    ensures Decision(st.tables.logs, p, u).Some? ==> MarksLatest(st.tables.logs, MarkedIds(st, now), p, u)
  {
    DecisionLatest(st.tables.logs, p, u);
    if Decision(st.tables.logs, p, u).Some? {
      assert Marks(st, LastRow(st.tables.logs, p, u).value, now);
    }
  }

  lemma {:induction false} SameId(logs: seq<LogRow>, now: int, x: LogRow, y: LogRow)
    requires Stamped(logs, now) && x in logs && y in logs && x.id == y.id
    ensures x == y
  {
    var i :| 0 <= i < |logs| && logs[i] == x;
    var j :| 0 <= j < |logs| && logs[j] == y;
    StampedAt(logs, now, i);
    StampedAt(logs, now, j);
  }

  lemma {:induction false} NotifySound(st: State, now: int)
    requires Sound(st) && st.now <= now
    ensures Sound(Notify(st, now))
  {
    var st' := Notify(st, now);
    var logs, ids := st.tables.logs, MarkedIds(st, now);
    assert References(st');
    MarkedStamped(logs, ids, now, st.now);
    StampedLater(st'.tables.logs, st.now, now);
  }

  lemma {:induction false} NotifyNotices(st: State, now: int, p: PerfId, u: UserId)
    requires Stamped(st.tables.logs, st.now) && NoticesSound(st.tables.logs)
    ensures NoticesOk(Notify(st, now).tables.logs, p, u)
  {
    assert NoticesOk(st.tables.logs, p, u);
    NotifyMarksDecided(st, now, p, u);
    MarkedNoticesOk(st.tables.logs, st.now, MarkedIds(st, now), now, p, u);
  }

  lemma {:induction false} NotifyFaithful(st: State, now: int)
    requires Stamped(st.tables.logs, st.now) && Faithful(st)
    ensures Faithful(Notify(st, now))
  {
    var st' := Notify(st, now);
    forall p, u ensures Agree(st'.tables, st'.quantities, p, u) {
      assert Agree(st.tables, st.quantities, p, u);
      NotifyMarksDecided(st, now, p, u);
      MarkedLoggedIn(st.tables.logs, st.now, MarkedIds(st, now), now, p, u);
    }
  }

  lemma {:induction false} NotifyInv(st: State, now: int)
    requires Inv(st) && st.now <= now
    ensures Inv(Notify(st, now))
  {
    var st' := Notify(st, now);
    NotifySound(st, now);
    NotifyFaithful(st, now);
    forall p, u ensures NoticesOk(st'.tables.logs, p, u) {
      NotifyNotices(st, now, p, u);
    }
  }

  lemma {:induction false} PurgeStaleSound(st: State, now: int)
    requires Sound(st) && st.now <= now
    ensures Sound(PurgeStaleRequests(st, now))
    ensures Inv(st) ==> Inv(PurgeStaleRequests(st, now))
  {
    RequestsSound(st, PurgeStaleRequests(st, now).requests, now);
  }
}
