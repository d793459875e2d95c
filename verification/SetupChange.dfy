/**
  Reconciling the cast after the setup of a performance changed: positions vanish, quantities grow and shrink. The
  positions that vanish are purged, the others saved back with the cast they had, so every change either empties its
  position or leaves everyone in place; what that does to bookings and log is given row by row.
*/
module SetupChange {
  import opened Positions
  import opened Tables
  import opened CastDiff
  import opened BookingLogs
  import opened SaveItem
  import opened ApplyChanges
  import opened CastSave

  /** Positions that left the setup are purged; the order among them is arbitrary. */
  function PurgeChanges(p: PerfId, removed: seq<PositionKey>): (changes: seq<Change>)
    ensures |changes| == |removed|
    ensures forall i :: 0 <= i < |removed| ==> changes[i] == Change(Slot(p, removed[i]), 0, None, None)
  {
    if removed == [] then []
    else PurgeChanges(p, removed[..|removed| - 1]) + [Change(Slot(p, removed[|removed| - 1]), 0, None, None)]
  }

  function KeepChange(rows: seq<Booking>, p: PerfId, item: SetupItem, oldQs: Quantities): Change {
    var slot := Slot(p, item.key);
    Change(slot, item.quantity, Some(CastOf(rows, slot)), if slot in oldQs then Some(oldQs[slot]) else None)
  }

  /** Every position of the new setup is saved again with the cast it has, against its old quantity. */
  function KeepChanges(rows: seq<Booking>, p: PerfId, items: seq<SetupItem>, oldQs: Quantities): (changes: seq<Change>)
    ensures |changes| == |items|
    ensures forall i :: 0 <= i < |items| ==> changes[i] == KeepChange(rows, p, items[i], oldQs)
  {
    if items == [] then []
    else KeepChanges(rows, p, items[..|items| - 1], oldQs) + [KeepChange(rows, p, items[|items| - 1], oldQs)]
  }

  /** The cast lists are read once, after the purge, and then saved position by position. */
  function Reconcile(t: CastTables, p: PerfId, removed: seq<PositionKey>, items: seq<SetupItem>,
                     oldQs: Quantities, now: int): CastTables
  {
    var purged := Run(t, PurgeChanges(p, removed), now);
    Run(purged, KeepChanges(purged.bookings, p, items, oldQs), now)
  }

  /** The same as one list of changes, read off the bookings before. */
  function AllChanges(rows: seq<Booking>, p: PerfId, removed: seq<PositionKey>, items: seq<SetupItem>,
                      oldQs: Quantities): seq<Change>
  {
    PurgeChanges(p, removed) + KeepChanges(rows, p, items, oldQs)
  }

  // ---- one list of changes ------------------------------------------------------------------

  lemma {:induction false} RunConcat(t: CastTables, a: seq<Change>, b: seq<Change>, now: int)
    ensures Run(t, a + b, now) == Run(Run(t, a, now), b, now)
  {
    if b == [] {
      assert a + b == a;
    } else {
      assert Init(a + b) == a + Init(b) && Last(a + b) == Last(b);
      RunConcat(t, a, Init(b), now);
    }
  }

  lemma {:induction false} PurgeAt(rows: seq<Booking>, p: PerfId, removed: seq<PositionKey>, slot: Slot)
    ensures At(RunRows(rows, PurgeChanges(p, removed)), slot)
            == if slot.perf == p && slot.key in removed then [] else At(rows, slot)
  {
    if removed != [] {
      var init, changes := removed[..|removed| - 1], PurgeChanges(p, removed);
      assert removed == init + [removed[|removed| - 1]];
      assert Init(changes) == PurgeChanges(p, init);
      var before := RunRows(rows, Init(changes));
      PurgeAt(rows, p, init, slot);
      assert RunRows(rows, changes) == Recast(before, Slot(p, removed[|removed| - 1]), []);
      RecastAt(before, Slot(p, removed[|removed| - 1]), [], slot);
      WithoutUsersNone(At(before, slot), p, UsersOf([]));
    }
  }

  lemma {:induction false} KeepChangesSame(a: seq<Booking>, b: seq<Booking>, p: PerfId, items: seq<SetupItem>,
                                           oldQs: Quantities)
    requires forall i :: 0 <= i < |items| ==> At(a, Slot(p, items[i].key)) == At(b, Slot(p, items[i].key))
    ensures KeepChanges(a, p, items, oldQs) == KeepChanges(b, p, items, oldQs)
  {
    if items != [] {
      KeepChangesSame(a, b, p, items[..|items| - 1], oldQs);
    }
  }

  /** The new setup and the removed positions are different positions. */
  predicate Apart(removed: seq<PositionKey>, items: seq<SetupItem>) {
    NoDup(removed + Keys(items))
  }

  lemma {:induction false} ApartKeys(removed: seq<PositionKey>, keys: seq<PositionKey>, i: nat)
    requires NoDup(removed + keys) && i < |keys|
    ensures keys[i] !in removed
  {
    forall j | 0 <= j < |removed| ensures removed[j] != keys[i] {
      NoDupPair(removed + keys, j, |removed| + i);
    }
  }

  lemma {:induction false} ReconcileIsRun(t: CastTables, p: PerfId, removed: seq<PositionKey>, items: seq<SetupItem>,
                                          oldQs: Quantities, now: int)
    requires Apart(removed, items)
    ensures Reconcile(t, p, removed, items, oldQs, now) == Run(t, AllChanges(t.bookings, p, removed, items, oldQs), now)
  {
    var purge := PurgeChanges(p, removed);
    RunBookings(t, purge, now);
    var rows := Run(t, purge, now).bookings;
    forall i | 0 <= i < |items|
      ensures At(rows, Slot(p, items[i].key)) == At(t.bookings, Slot(p, items[i].key))
    {
      ApartKeys(removed, Keys(items), i);
      PurgeAt(t.bookings, p, removed, Slot(p, items[i].key));
    }
    KeepChangesSame(rows, t.bookings, p, items, oldQs);
    RunConcat(t, purge, KeepChanges(rows, p, items, oldQs), now);
  }

  lemma {:induction false} PurgeTouched(p: PerfId, removed: seq<PositionKey>, slot: Slot)
    ensures Touched(PurgeChanges(p, removed), slot) <==> slot.perf == p && slot.key in removed
  {
    if removed != [] {
      var init := removed[..|removed| - 1];
      assert removed == init + [removed[|removed| - 1]];
      assert Init(PurgeChanges(p, removed)) == PurgeChanges(p, init);
      PurgeTouched(p, init, slot);
    }
  }

  lemma {:induction false} AllChangesInit(rows: seq<Booking>, p: PerfId, removed: seq<PositionKey>,
                                          items: seq<SetupItem>, oldQs: Quantities)
    requires items != []
    ensures AllChanges(rows, p, removed, items, oldQs) != []
    ensures Init(AllChanges(rows, p, removed, items, oldQs))
            == AllChanges(rows, p, removed, items[..|items| - 1], oldQs)
    ensures Last(AllChanges(rows, p, removed, items, oldQs)) == KeepChange(rows, p, items[|items| - 1], oldQs)
    ensures Keys(items) == Keys(items[..|items| - 1]) + [items[|items| - 1].key]
  {
    var keep := KeepChanges(rows, p, items, oldQs);
    assert Init(keep) == KeepChanges(rows, p, items[..|items| - 1], oldQs);
  }

  lemma {:induction false} AllTouched(rows: seq<Booking>, p: PerfId, removed: seq<PositionKey>, items: seq<SetupItem>,
                                      oldQs: Quantities, slot: Slot)
    ensures Touched(AllChanges(rows, p, removed, items, oldQs), slot)
            <==> slot.perf == p && (slot.key in removed || slot.key in Keys(items))
  {
    if items == [] {
      assert AllChanges(rows, p, removed, items, oldQs) == PurgeChanges(p, removed);
      PurgeTouched(p, removed, slot);
    } else {
      AllChangesInit(rows, p, removed, items, oldQs);
      AllTouched(rows, p, removed, items[..|items| - 1], oldQs, slot);
    }
  }

  lemma {:induction false} PurgeWellFormed(p: PerfId, removed: seq<PositionKey>)
    requires NoDup(removed)
    ensures WellFormed(PurgeChanges(p, removed), p)
  {
    if removed != [] {
      var init := removed[..|removed| - 1];
      assert Init(PurgeChanges(p, removed)) == PurgeChanges(p, init);
      PurgeWellFormed(p, init);
      PurgeTouched(p, init, Slot(p, removed[|removed| - 1]));
    }
  }

  lemma {:induction false} AllWellFormed(rows: seq<Booking>, p: PerfId, removed: seq<PositionKey>,
                                         items: seq<SetupItem>, oldQs: Quantities)
    requires Apart(removed, items) && UniqueBookings(rows) && Ordered(rows)
    ensures WellFormed(AllChanges(rows, p, removed, items, oldQs), p)
  {
    if items == [] {
      assert removed + Keys(items) == removed;
      assert AllChanges(rows, p, removed, items, oldQs) == PurgeChanges(p, removed);
      PurgeWellFormed(p, removed);
    } else {
      var init, slot := items[..|items| - 1], Slot(p, items[|items| - 1].key);
      AllChangesInit(rows, p, removed, items, oldQs);
      assert (removed + Keys(items))[..|removed| + |init|] == removed + Keys(init);
      AllWellFormed(rows, p, removed, init, oldQs);
      AllTouched(rows, p, removed, init, oldQs, slot);
      CastIndex(rows, slot, 0);
      ApartKeys(removed, Keys(items), |items| - 1);
      assert Keys(items)[..|init|] == Keys(init);
      NoDupSuffix(removed, Keys(items));
    }
  }

  lemma {:induction false} NoDupSuffix<T>(a: seq<T>, b: seq<T>)
    requires NoDup(a + b)
    ensures NoDup(b)
  {
    if b != [] {
      var n := |b| - 1;
      assert (a + b)[..|a| + n] == a + b[..n];
      NoDupSuffix(a, b[..n]);
      assert forall i :: 0 <= i < n ==> b[i] == (a + b)[..|a| + n][|a| + i];
    }
  }

  // ---- changes that leave everyone in place -------------------------------------------------

  /** The change purges its position, or stores back the cast it had before the transaction. */
  predicate Standing(rows: seq<Booking>, oldQs: Quantities, c: Change) {
    || c.newCast.None?
    || (c.newCast == Some(CastOf(rows, c.slot))
        && c.oldQuantity == if c.slot in oldQs then Some(oldQs[c.slot]) else None)
  }

  predicate AllStanding(rows: seq<Booking>, oldQs: Quantities, changes: seq<Change>) {
    changes == [] || (Standing(rows, oldQs, Last(changes)) && AllStanding(rows, oldQs, Init(changes)))
  }

  predicate Purged(changes: seq<Change>, slot: Slot) {
    changes != [] && ((Last(changes).slot == slot && Last(changes).newCast.None?) || Purged(Init(changes), slot))
  }

  lemma {:induction false} PurgedTouched(changes: seq<Change>, slot: Slot)
    ensures Purged(changes, slot) ==> Touched(changes, slot)
  {
    if changes != [] {
      PurgedTouched(Init(changes), slot);
    }
  }

  lemma {:induction false} PurgeStanding(rows: seq<Booking>, p: PerfId, removed: seq<PositionKey>, oldQs: Quantities,
                                         slot: Slot)
    ensures AllStanding(rows, oldQs, PurgeChanges(p, removed))
    ensures Purged(PurgeChanges(p, removed), slot) <==> slot.perf == p && slot.key in removed
  {
    if removed != [] {
      var init := removed[..|removed| - 1];
      assert removed == init + [removed[|removed| - 1]];
      assert Init(PurgeChanges(p, removed)) == PurgeChanges(p, init);
      PurgeStanding(rows, p, init, oldQs, slot);
    }
  }

  lemma {:induction false} ChangesStanding(rows: seq<Booking>, p: PerfId, removed: seq<PositionKey>,
                                           items: seq<SetupItem>, oldQs: Quantities, slot: Slot)
    ensures AllStanding(rows, oldQs, AllChanges(rows, p, removed, items, oldQs))
    ensures Purged(AllChanges(rows, p, removed, items, oldQs), slot) <==> slot.perf == p && slot.key in removed
  {
    if items == [] {
      assert AllChanges(rows, p, removed, items, oldQs) == PurgeChanges(p, removed);
      PurgeStanding(rows, p, removed, oldQs, slot);
    } else {
      AllChangesInit(rows, p, removed, items, oldQs);
      ChangesStanding(rows, p, removed, items[..|items| - 1], oldQs, slot);
    }
  }

  // ---- the bookings afterwards --------------------------------------------------------------

  lemma {:induction false} NewRowsOfContiguous(rows: seq<Booking>, slot: Slot)
    requires Contiguous(rows) && forall i :: 0 <= i < |rows| ==> rows[i].slot == slot
    ensures NewRows(slot, Entries(rows)) == rows
  {
    forall i | 0 <= i < |rows| ensures NewRows(slot, Entries(rows))[i] == rows[i] {
      ContiguousOrder(rows, i);
    }
  }

  /** Nobody on one position is listed in the cast of another. */
  lemma {:induction false} CastsApart(rows: seq<Booking>, here: Slot, there: Slot, u: UserId)
    requires UniqueBookings(rows) && Ordered(rows) && here != there && here.perf == there.perf
    ensures u in Ids(CastOf(rows, here)) ==> u !in Ids(CastOf(rows, there))
  {
    CastIndex(rows, here, u);
    CastIndex(rows, there, u);
  }

  /** Saving the cast of another position takes no row that stems from this one. */
  lemma {:induction false} RowsApart(rows: seq<Booking>, here: Slot, there: Slot, mine: seq<Booking>)
    requires UniqueBookings(rows) && Ordered(rows) && here != there
    requires mine == [] || mine == At(rows, here) || mine == NewRows(here, CastOf(rows, here))
    ensures WithoutUsers(mine, there.perf, UsersOf(CastOf(rows, there))) == mine
  {
    CastOfOrdered(rows, here);
    forall j | 0 <= j < |mine| ensures !Hit(mine[j], there.perf, UsersOf(CastOf(rows, there))) {
      assert Ids(CastOf(rows, here))[j] == mine[j].user;
      if here.perf == there.perf {
        CastsApart(rows, here, there, mine[j].user);
      }
    }
    WithoutUsersNone(mine, there.perf, UsersOf(CastOf(rows, there)));
  }

  /** A kept position is numbered anew from 0, a removed one loses its rows, nothing else changes. */
  lemma {:induction false} StandingRows(rows: seq<Booking>, oldQs: Quantities, changes: seq<Change>, p: PerfId,
                                        slot: Slot)
    requires WellFormed(changes, p) && AllStanding(rows, oldQs, changes)
    requires UniqueBookings(rows) && Ordered(rows)
    ensures At(RunRows(rows, changes), slot)
            == if Purged(changes, slot) then []
               else if Touched(changes, slot) then NewRows(slot, CastOf(rows, slot))
               else At(rows, slot)
  {
    if changes != [] {
      var c, before := Last(changes), RunRows(rows, Init(changes));
      StandingRows(rows, oldQs, Init(changes), p, slot);
      RecastAt(before, c.slot, c.Cast(), slot);
      PurgedTouched(Init(changes), slot);
      if c.newCast.None? {
        WithoutUsersNone(At(before, slot), p, UsersOf([]));
      } else if slot != c.slot {
        RowsApart(rows, slot, c.slot, At(before, slot));
      }
    }
  }

  /** Numbering a gap-free position anew changes nothing. */
  lemma {:induction false} RenumberedSame(rows: seq<Booking>, slot: Slot)
    requires GapFree(rows)
    ensures NewRows(slot, CastOf(rows, slot)) == At(rows, slot)
  {
    GapFreeOrdered(rows);
    CastOfOrdered(rows, slot);
    NewRowsOfContiguous(At(rows, slot), slot);
  }

  /** With gap-free orders a kept position keeps its rows as they are. */
  lemma {:induction false} StandingAt(rows: seq<Booking>, oldQs: Quantities, changes: seq<Change>, p: PerfId,
                                      slot: Slot)
    requires WellFormed(changes, p) && AllStanding(rows, oldQs, changes)
    requires UniqueBookings(rows) && GapFree(rows)
    ensures At(RunRows(rows, changes), slot) == if Purged(changes, slot) then [] else At(rows, slot)
  {
    GapFreeOrdered(rows);
    StandingRows(rows, oldQs, changes, p, slot);
    RenumberedSame(rows, slot);
  }

  /** The bookings after a setup change, exactly, whatever gaps there were before. */
  lemma {:induction false} ReconcileRows(rows: seq<Booking>, p: PerfId, removed: seq<PositionKey>,
                                         items: seq<SetupItem>, oldQs: Quantities, slot: Slot)
    requires Apart(removed, items) && UniqueBookings(rows) && Ordered(rows)
    ensures At(RunRows(rows, AllChanges(rows, p, removed, items, oldQs)), slot)
            == if slot.perf == p && slot.key in removed then []
               else if slot.perf == p && slot.key in Keys(items) then NewRows(slot, CastOf(rows, slot))
               else At(rows, slot)
  {
    AllWellFormed(rows, p, removed, items, oldQs);
    ChangesStanding(rows, p, removed, items, oldQs, slot);
    AllTouched(rows, p, removed, items, oldQs, slot);
    StandingRows(rows, oldQs, AllChanges(rows, p, removed, items, oldQs), p, slot);
  }

  /** With gap-free orders every cast that is kept stays row for row as it was. */
  lemma {:induction false} ReconcileAt(rows: seq<Booking>, p: PerfId, removed: seq<PositionKey>, items: seq<SetupItem>,
                                       oldQs: Quantities, slot: Slot)
    requires Apart(removed, items) && UniqueBookings(rows) && GapFree(rows)
    ensures At(RunRows(rows, AllChanges(rows, p, removed, items, oldQs)), slot)
            == if slot.perf == p && slot.key in removed then [] else At(rows, slot)
  {
    GapFreeOrdered(rows);
    AllWellFormed(rows, p, removed, items, oldQs);
    ChangesStanding(rows, p, removed, items, oldQs, slot);
    StandingAt(rows, oldQs, AllChanges(rows, p, removed, items, oldQs), p, slot);
  }

  // ---- the log afterwards -------------------------------------------------------------------

  /**
    What one change of the setup has to log, from the cast before: everyone on a removed position is unbooked; on a
    kept position exactly the entries between the old and the new quantity are promoted or demoted.
  */
  function Entitled(rows: seq<Booking>, c: Change): seq<Transition> {
    var cast := CastOf(rows, c.slot);
    if c.newCast.None? then Span(cast, 0, |cast|, Unbook)
    else if c.oldQuantity.None? then []
    else if c.oldQuantity.value <= c.quantity then Span(cast, c.oldQuantity.value, Min(|cast|, c.quantity), Book)
    else Span(cast, c.quantity, Min(|cast|, c.oldQuantity.value), Unbook)
  }

  function SetupLog(logs: seq<LogRow>, rows: seq<Booking>, changes: seq<Change>, now: int): seq<LogRow> {
    if changes == [] then logs
    else Logged(SetupLog(logs, rows, Init(changes), now), Entitled(rows, Last(changes)), Last(changes).slot, now)
  }

  /** Bookings stand only on positions that have a quantity. */
  ghost predicate OnSetup(rows: seq<Booking>, qs: Quantities) {
    forall b :: b in rows ==> b.slot in qs
  }

  lemma {:induction false} AtNone(rows: seq<Booking>, slot: Slot)
    requires forall b :: b in rows ==> b.slot != slot
    ensures At(rows, slot) == []
  {
    if rows != [] {
      assert rows[|rows| - 1] in rows;
      AtNone(rows[..|rows| - 1], slot);
    }
  }

  lemma {:induction false} StandingTransitions(rows: seq<Booking>, oldQs: Quantities, c: Change)
    requires UniqueBookings(rows) && Ordered(rows) && OnSetup(rows, oldQs)
    requires Standing(rows, oldQs, c) && c.newCast.Some?
    ensures Diff(CastOf(rows, c.slot), c.Cast(), c.quantity, c.oldQuantity) == Entitled(rows, c)
  {
    var cast := CastOf(rows, c.slot);
    CastIndex(rows, c.slot, 0);
    CastOfOrdered(rows, c.slot);
    if c.oldQuantity.Some? {
      DiffSameCast(cast, c.quantity, c.oldQuantity.value);
    } else {
      AtNone(rows, c.slot);
      assert Judgments(Ids(cast), cast, c.quantity, c.quantity) == [];
    }
  }

  /** One more change: what it finds on its position is what was there before the transaction. */
  lemma {:induction false} StandingLogStep(rows: seq<Booking>, oldQs: Quantities, before: CastTables, c: Change,
                                           now: int)
    requires UniqueBookings(rows) && Ordered(rows) && OnSetup(rows, oldQs) && Standing(rows, oldQs, c)
    requires At(before.bookings, c.slot) == At(rows, c.slot)
    ensures Run1(before, c, now).logs == Logged(before.logs, Entitled(rows, c), c.slot, now)
  {
    if c.newCast.Some? {
      StandingTransitions(rows, oldQs, c);
    }
  }

  /** The log after a setup change, exactly. */
  lemma {:induction false} StandingLog(t: CastTables, oldQs: Quantities, changes: seq<Change>, p: PerfId, now: int)
    requires WellFormed(changes, p) && AllStanding(t.bookings, oldQs, changes)
    requires UniqueBookings(t.bookings) && Ordered(t.bookings) && OnSetup(t.bookings, oldQs)
    ensures Run(t, changes, now).logs == SetupLog(t.logs, t.bookings, changes, now)
  {
    if changes != [] {
      var init, c := Init(changes), Last(changes);
      StandingLog(t, oldQs, init, p, now);
      RunBookings(t, init, now);
      StandingRows(t.bookings, oldQs, init, p, c.slot);
      PurgedTouched(init, c.slot);
      StandingLogStep(t.bookings, oldQs, Run(t, init, now), c, now);
    }
  }

  // ---- the log stays faithful ---------------------------------------------------------------

  lemma {:induction false} StandingReferenced(rows: seq<Booking>, oldQs: Quantities, changes: seq<Change>)
    requires Ordered(rows) && OnSetup(rows, oldQs) && AllStanding(rows, oldQs, changes)
    ensures Referenced(oldQs, changes)
  {
    if changes != [] {
      var c := Last(changes);
      StandingReferenced(rows, oldQs, Init(changes));
      CastOfOrdered(rows, c.slot);
      if c.slot !in oldQs {
        AtNone(rows, c.slot);
      }
    }
  }

  lemma {:induction false} NotSilentInPlace(rows: seq<Booking>, now: seq<Booking>, oldQs: Quantities, c: Change,
                                            u: UserId)
    requires UniqueBookings(now) && Ordered(now) && GapFree(rows)
    requires At(now, c.slot) == At(rows, c.slot)
    ensures !Silent(now, c.slot, c.Cast(), c.quantity, QuantityAt(oldQs, c.slot), u)
  {
    CastIndex(now, c.slot, u);
    if u in Ids(CastOf(now, c.slot)) {
      ContiguousOrder(At(now, c.slot), IndexOf(Ids(CastOf(now, c.slot)), u));
    }
  }

  /** With gap-free orders nobody is promoted silently by a setup change. */
  lemma {:induction false} StandingNotSilent(rows: seq<Booking>, oldQs: Quantities, changes: seq<Change>, p: PerfId,
                                             u: UserId)
    requires WellFormed(changes, p) && AllStanding(rows, oldQs, changes)
    requires UniqueBookings(rows) && GapFree(rows)
    ensures !SilentlyPromoted(rows, oldQs, changes, u)
  {
    if changes != [] {
      var init, c := Init(changes), Last(changes);
      GapFreeOrdered(rows);
      StandingNotSilent(rows, oldQs, init, p, u);
      RunInvariants(rows, init, p);
      StandingRows(rows, oldQs, init, p, c.slot);
      PurgedTouched(init, c.slot);
      NotSilentInPlace(rows, RunRows(rows, init), oldQs, c, u);
    }
  }

  /** A setup change keeps log and bookings in agreement, about every user, with no further condition. */
  lemma {:induction false} ReconcileAgree(t: CastTables, p: PerfId, removed: seq<PositionKey>, items: seq<SetupItem>,
                                          oldQs: Quantities, now: int, q: PerfId, u: UserId)
    requires Apart(removed, items) && UniqueBookings(t.bookings) && GapFree(t.bookings) && OnSetup(t.bookings, oldQs)
    requires Agree(t, oldQs, q, u)
    ensures Agree(Reconcile(t, p, removed, items, oldQs, now),
                  RunQuantities(oldQs, AllChanges(t.bookings, p, removed, items, oldQs)), q, u)
  {
    var all := AllChanges(t.bookings, p, removed, items, oldQs);
    GapFreeOrdered(t.bookings);
    ReconcileIsRun(t, p, removed, items, oldQs, now);
    AllWellFormed(t.bookings, p, removed, items, oldQs);
    if q == p {
      ChangesStanding(t.bookings, p, removed, items, oldQs, Slot(p, PositionKey(Instruments, 0)));
      StandingReferenced(t.bookings, oldQs, all);
      StandingNotSilent(t.bookings, oldQs, all, p, u);
      RunAgree(t, oldQs, all, now, p, u);
    } else {
      RunAgreeElsewhere(t, oldQs, all, now, p, q, u);
    }
  }
}
