/**
  The two assumptions a save rests on without checking them: no user listed twice, no move to a position processed
  earlier. Together they suffice.
*/
module Assumptions {
  import opened Positions
  import opened Tables
  import opened CastDiff
  import opened BookingLogs
  import opened SaveItem
  import opened ApplyChanges
  import opened CastSave
  import opened SetupChange
  import opened Store
  import opened Invariant

  /** Together the two assumptions make a save a good one. */
  lemma {:induction false} AssumptionsSuffice(st: State, p: PerfId, payload: Payload, now: int)
    requires Sound(st) && GapFree(st.tables.bookings) && Succeeds(st, p, payload, now)
    requires Disjoint(ChangesOf(st, p, payload)) && NoBackwardMove(st.tables.bookings, ChangesOf(st, p, payload), p)
    ensures GoodSave(st, p, payload)
  {
    var changes := ChangesOf(st, p, payload);
    SaveShape(st, p, payload);
    forall i, u ensures !SilentPromotion(st.tables.bookings, st.quantities, changes, p, i, u) {
      NoBackwardMoveNotSilent(st.tables.bookings, st.quantities, changes, p, i, u);
    }
  }

  /** The list a payload holds for a position. */
  function Listed(payload: Payload, key: PositionKey): seq<CastEntry> {
    if key in payload then payload[key] else []
  }

  /**
    A save of a disjoint payload ends with exactly the payload, cut down to the setup: each position of the setup
    holds its list, numbered from 0; the performance has no other bookings; other performances are untouched.
  */
  lemma {:induction false} SaveStoresPayload(st: State, p: PerfId, payload: Payload, notBooked: seq<UserId>, now: int,
                                             slot: Slot)
    requires Sound(st) && st.now <= now && Succeeds(st, p, payload, now)
    requires Disjoint(ChangesOf(st, p, payload))
    ensures At(SaveCast(st, p, payload, notBooked, now).0.tables.bookings, slot)
            == if slot.perf != p then At(st.tables.bookings, slot)
               else if slot in st.quantities then NewRows(slot, Listed(payload, slot.key))
               else []
  {
    var changes, rows := ChangesOf(st, p, payload), st.tables.bookings;
    SaveCastKeeps(st, p, payload, notBooked, now);
    RunBookings(st.tables, changes, now);
    SaveShape(st, p, payload);
    SaveTouches(st, p, payload, slot);
    if slot.perf == p && slot in st.quantities {
      var i := TouchedIndex(changes, slot);
      SaveDisjoint(rows, changes, p, i);
    } else {
      RunAtUntouched(rows, changes, p, slot);
      NobodyTaken(rows, slot, p, UsersIn(changes, 0));
    }
  }

  /**
    Whatever the payload, the position processed last among those that list a user gets it, under its index there; a
    user no position of the setup lists loses its booking.
  */
  lemma {:induction false} LastListingWins(st: State, p: PerfId, payload: Payload, notBooked: seq<UserId>, now: int,
                                           u: UserId)
    returns (last: Option<Change>)
    requires Sound(st) && st.now <= now && Succeeds(st, p, payload, now)
    ensures var changes := ChangesOf(st, p, payload);
            match last
            case None => u !in UsersIn(changes, 0)
            case Some(c) =>
              && u in Ids(c.Cast())
              && exists i :: 0 <= i < |changes| && changes[i] == c && u !in UsersIn(changes, i + 1)
    ensures BookingOf(SaveCast(st, p, payload, notBooked, now).0.tables.bookings, p, u)
            == if last.None? then None else Some(RowIn(last.value, u))
  {
    var changes, rows := ChangesOf(st, p, payload), st.tables.bookings;
    SaveCastKeeps(st, p, payload, notBooked, now);
    RunBookings(st.tables, changes, now);
    SaveShape(st, p, payload);
    if u in UsersIn(changes, 0) {
      var i := LastListing(changes, u);
      last := Some(changes[i]);
      RunBookingListed(rows, changes, p, i, u);
    } else {
      last := None;
      RunBookingUnlisted(rows, changes, p, p, u);
      if BookingOf(rows, p, u).Some? {
        SaveTouches(st, p, payload, BookingOf(rows, p, u).value.slot);
      }
    }
  }

  lemma {:induction false} SaveTouches(st: State, p: PerfId, payload: Payload, slot: Slot)
    requires References(st)
    ensures Touched(ChangesOf(st, p, payload), slot) <==> slot.perf == p && slot in st.quantities
  {
    SaveChangesTouched(p, GetSetup(st, p), payload, slot);
    ItemsAmongKeys(Order(st.catalog), st.quantities, p, slot.key);
  }

  lemma {:induction false} NobodyTaken(rows: seq<Booking>, slot: Slot, p: PerfId, us: set<UserId>)
    ensures slot.perf != p || At(rows, slot) == [] ==> WithoutUsers(At(rows, slot), p, us) == At(rows, slot)
  {
    if slot.perf != p || At(rows, slot) == [] {
      WithoutUsersNone(At(rows, slot), p, us);
    }
  }

  /**
    Saving no cast where there is none does nothing: so it does not matter that a position just added is not read
    yet.
  */
  lemma {:induction false} EmptyPositionUntouched(t: CastTables, slot: Slot, quantity: nat, oldQuantity: Option<nat>,
                                                  now: int)
    requires At(t.bookings, slot) == []
    ensures SaveCastItem(t, slot, quantity, Some([]), oldQuantity, now) == t
  {
    WithoutSlotNone(t.bookings, slot);
    WithoutUsersNone(t.bookings, slot.perf, UsersOf([]));
    assert CastOf(t.bookings, slot) == [];
    assert Judgments([], [], quantity, Reference(quantity, oldQuantity)) == [];
    assert NewRows(slot, []) == [] && LogRows([], |t.logs|, slot, now) == [];
  }

  /** The positions of the setup that were configured before. */
  function Known(p: PerfId, items: seq<SetupItem>, oldQs: Quantities): seq<SetupItem> {
    if items == [] then []
    else
      var last := items[|items| - 1];
      Known(p, items[..|items| - 1], oldQs) + (if Slot(p, last.key) in oldQs then [last] else [])
  }

  /**
    A setup change from which no position was removed reads the setup before the new positions are written, and so
    saves back only the positions configured before. That makes no difference: nobody is booked on a new one.
  */
  lemma {:induction false} NewPositionsDoNotMatter(t: CastTables, p: PerfId, items: seq<SetupItem>, oldQs: Quantities,
                                                   now: int)
    requires UniqueBookings(t.bookings) && Ordered(t.bookings) && OnSetup(t.bookings, oldQs) && NoDup(Keys(items))
    ensures Reconcile(t, p, [], items, oldQs, now) == Reconcile(t, p, [], Known(p, items, oldQs), oldQs, now)
  {
    assert Run(t, PurgeChanges(p, []), now) == t;
    KnownSuffice(t, p, items, oldQs, now);
  }

  lemma {:induction false} KnownSuffice(t: CastTables, p: PerfId, items: seq<SetupItem>, oldQs: Quantities, now: int)
    requires UniqueBookings(t.bookings) && Ordered(t.bookings) && OnSetup(t.bookings, oldQs) && NoDup(Keys(items))
    ensures Run(t, KeepChanges(t.bookings, p, items, oldQs), now)
            == Run(t, KeepChanges(t.bookings, p, Known(p, items, oldQs), oldQs), now)
  {
    if items != [] {
      var init, last := items[..|items| - 1], items[|items| - 1];
      assert items == init + [last];
      assert NoDup(Keys(init)) by {
        assert Keys(items) == Keys(init) + [last.key] && Keys(items)[..|init|] == Keys(init);
      }
      KnownSuffice(t, p, init, oldQs, now);
      if Slot(p, last.key) in oldQs {
        assert Known(p, items, oldQs) == Known(p, init, oldQs) + [last];
      } else {
        assert Known(p, items, oldQs) == Known(p, init, oldQs);
        NewPositionEmpty(t, p, items, oldQs, now);
      }
    }
  }

  /** When the turn of a new position comes there is nobody on it, and nobody to be put on it. */
  lemma {:induction false} NewPositionEmpty(t: CastTables, p: PerfId, items: seq<SetupItem>, oldQs: Quantities,
                                            now: int)
    requires UniqueBookings(t.bookings) && Ordered(t.bookings) && OnSetup(t.bookings, oldQs) && NoDup(Keys(items))
    requires items != [] && Slot(p, items[|items| - 1].key) !in oldQs
    ensures var before := Run(t, KeepChanges(t.bookings, p, items[..|items| - 1], oldQs), now);
            Run1(before, KeepChange(t.bookings, p, items[|items| - 1], oldQs), now) == before
  {
    var init, slot, rows := items[..|items| - 1], Slot(p, items[|items| - 1].key), t.bookings;
    var changes := KeepChanges(rows, p, init, oldQs);
    AtNone(rows, slot);
    assert CastOf(rows, slot) == [];
    assert [] + Keys(init) == Keys(init) && Keys(items)[..|init|] == Keys(init);
    assert AllChanges(rows, p, [], init, oldQs) == changes;
    AllWellFormed(rows, p, [], init, oldQs);
    AllTouched(rows, p, [], init, oldQs, slot);
    RunAtUntouched(rows, changes, p, slot);
    RunBookings(t, changes, now);
    EmptyPositionUntouched(Run(t, changes, now), slot, items[|items| - 1].quantity, None, now);
  }

  lemma {:induction false} WithoutSlotNone(rows: seq<Booking>, slot: Slot)
    requires At(rows, slot) == []
    ensures WithoutSlot(rows, slot) == rows
  {
    if rows != [] {
      var init, last := rows[..|rows| - 1], rows[|rows| - 1];
      assert rows == init + [last];
      AtMember(rows, slot, last);
      assert |At(rows, slot)| >= |At(init, slot)|;
      WithoutSlotNone(init, slot);
    }
  }
}
