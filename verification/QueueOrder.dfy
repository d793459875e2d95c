/** Between two saves of the cast nobody overtakes anybody, and nobody is demoted unless the quantity shrank. */
module QueueOrder {
  import opened Positions
  import opened Tables
  import opened CastDiff
  import opened CastSave
  import opened SelfService
  import opened Store
  import opened Invariant
  import opened Preservation
  import opened Regulars
  import opened Runs

  /** The list without some of its users: a subsequence. */
  function Without(cast: seq<CastEntry>, gone: set<UserId>): seq<CastEntry> {
    if cast == [] then []
    else
      var last := cast[|cast| - 1];
      Without(cast[..|cast| - 1], gone) + (if last.user in gone then [] else [last])
  }

  lemma {:induction false} WithoutConcat(a: seq<CastEntry>, b: seq<CastEntry>, gone: set<UserId>)
    ensures Without(a + b, gone) == Without(a, gone) + Without(b, gone)
  {
    if b == [] {
      assert a + b == a;
    } else {
      assert (a + b)[..|a + b| - 1] == a + b[..|b| - 1];
      WithoutConcat(a, b[..|b| - 1], gone);
    }
  }

  lemma {:induction false} WithoutTwice(cast: seq<CastEntry>, a: set<UserId>, b: set<UserId>)
    ensures Without(Without(cast, a), b) == Without(cast, a + b)
  {
    if cast != [] {
      var init, last := cast[..|cast| - 1], cast[|cast| - 1];
      WithoutTwice(init, a, b);
      if last.user in a {
        assert Without(cast, a) == Without(init, a);
      } else {
        WithoutConcat(Without(init, a), [last], b);
      }
    }
  }

  lemma {:induction false} WithoutNobody(cast: seq<CastEntry>)
    ensures Without(cast, {}) == cast
  {
    if cast != [] {
      WithoutNobody(cast[..|cast| - 1]);
      assert cast == cast[..|cast| - 1] + [cast[|cast| - 1]];
    }
  }

  lemma {:induction false} WithoutAll(cast: seq<CastEntry>, gone: set<UserId>)
    requires forall i :: 0 <= i < |cast| ==> cast[i].user in gone
    ensures Without(cast, gone) == []
  {
    if cast != [] {
      WithoutAll(cast[..|cast| - 1], gone);
    }
  }

  lemma {:induction false} WithoutRemoveAt(cast: seq<CastEntry>, k: nat)
    requires NoDup(Ids(cast)) && k < |cast|
    ensures Without(cast, {cast[k].user}) == RemoveAt(cast, k)
  {
    var n := |cast| - 1;
    assert Ids(cast)[..n] == Ids(cast[..n]);
    if k == n {
      forall i | 0 <= i < n ensures cast[i].user != cast[k].user {
        NoDupPair(Ids(cast), i, k);
      }
      WithoutOther(cast[..n], {cast[k].user});
      assert Without(cast, {cast[k].user}) == cast[..n] + [];
    } else {
      NoDupPair(Ids(cast), n, k);
      WithoutRemoveAt(cast[..n], k);
      assert RemoveAt(cast[..n], k) + [cast[n]] == RemoveAt(cast, k);
    }
  }

  lemma {:induction false} WithoutOther(cast: seq<CastEntry>, gone: set<UserId>)
    requires forall i :: 0 <= i < |cast| ==> cast[i].user !in gone
    ensures Without(cast, gone) == cast
  {
    if cast != [] {
      WithoutOther(cast[..|cast| - 1], gone);
      assert cast == cast[..|cast| - 1] + [cast[|cast| - 1]];
    }
  }

  /** A user that is still in the list has not moved back. */
  lemma {:induction false} WithoutIndex(cast: seq<CastEntry>, gone: set<UserId>, i: nat) returns (j: nat)
    requires i < |Without(cast, gone)|
    ensures i <= j < |cast| && cast[j] == Without(cast, gone)[i]
  {
    var init := cast[..|cast| - 1];
    if i < |Without(init, gone)| {
      j := WithoutIndex(init, gone, i);
    } else {
      j := |cast| - 1;
      WithoutShorter(init, gone);
    }
  }

  lemma {:induction false} WithoutShorter(cast: seq<CastEntry>, gone: set<UserId>)
    ensures |Without(cast, gone)| <= |cast|
  {
    if cast != [] {
      WithoutShorter(cast[..|cast| - 1], gone);
    }
  }

  // ---- one step -----------------------------------------------------------------------------

  function StateCast(st: State, slot: Slot): seq<CastEntry> {
    CastOf(st.tables.bookings, slot)
  }

  lemma {:induction false} EntriesOfNewRows(slot: Slot, cast: seq<CastEntry>)
    ensures Entries(NewRows(slot, cast)) == cast
  {
    forall i | 0 <= i < |cast| ensures Entries(NewRows(slot, cast))[i] == cast[i] {
    }
  }

  lemma {:induction false} UpdateQueue(st: State, p: PerfId, schedule: int, items: seq<SetupItem>,
                                       removed: seq<PositionKey>, now: int, slot: Slot) returns (gone: set<UserId>)
    requires Sound(st) && st.now <= now && Enumerates(removed, RemovedKeys(st.quantities, p, Desired(items)))
    ensures StateCast(UpdatePerformance(st, p, schedule, items, removed, now).0, slot)
            == Without(StateCast(st, slot), gone)
  {
    var st' := UpdatePerformance(st, p, schedule, items, removed, now).0;
    gone := {};
    WithoutNobody(StateCast(st, slot));
    if Updates(st, p, schedule, items, removed, now) {
      UpdateKeeps(st, p, schedule, items, removed, now);
      UpdateRows(st, p, schedule, items, removed, now, slot);
      CastOfOrdered(st'.tables.bookings, slot);
      EntriesOfNewRows(slot, StateCast(st, slot));
      if slot.perf == p && slot.key in removed {
        gone := UsersOf(StateCast(st, slot));
        forall i | 0 <= i < |StateCast(st, slot)| ensures StateCast(st, slot)[i].user in gone {
          assert Ids(StateCast(st, slot))[i] in Ids(StateCast(st, slot));
        }
        WithoutAll(StateCast(st, slot), gone);
      }
    }
  }

  lemma {:induction false} CancelQueue(st: State, b: Booking, now: int, slot: Slot) returns (gone: set<UserId>)
    requires Sound(st) && st.now <= now && b in st.tables.bookings
    ensures CastOf(CancelBooking(st.tables, st.quantities, b.slot.perf, b.user, now).bookings, slot)
            == Without(StateCast(st, slot), gone)
  {
    var cast := StateCast(st, slot);
    CancelKeeps(st, b, now);
    CastOfOrdered(CancelBooking(st.tables, st.quantities, b.slot.perf, b.user, now).bookings, slot);
    CancelRows(st.tables, st.quantities, b, now, slot);
    if slot == b.slot {
      var k := IndexOf(Ids(cast), b.user);
      CastIndex(st.tables.bookings, slot, b.user);
      WithoutRemoveAt(cast, k);
      gone := {b.user};
      EntriesOfNewRows(slot, RemoveAt(cast, k));
    } else {
      gone := {};
      WithoutNobody(cast);
    }
  }

  lemma {:induction false} ToggleTables(st: State, p: PerfId, u: UserId, now: int)
    ensures Toggle(st, p, u, now).0.tables == st.tables
         || Toggle(st, p, u, now).0.tables == CancelBooking(st.tables, st.quantities, p, u, now)
  {
  }

  lemma {:induction false} ToggleQueue(st: State, p: PerfId, u: UserId, now: int, slot: Slot)
    returns (gone: set<UserId>)
    requires Sound(st) && st.now <= now
    ensures StateCast(Toggle(st, p, u, now).0, slot) == Without(StateCast(st, slot), gone)
  {
    gone := {};
    ToggleTables(st, p, u, now);
    WithoutNobody(StateCast(st, slot));
    var tables := Toggle(st, p, u, now).0.tables;
    if tables != st.tables {
      var b := BookingOf(st.tables.bookings, p, u).value;
      assert tables == CancelBooking(st.tables, st.quantities, b.slot.perf, b.user, now);
      gone := CancelQueue(st, b, now, slot);
    }
  }

  lemma {:induction false} OtherStepsKeepBookings(st: State, step: Step, now: int)
    requires !step.SaveStep? && !step.UpdateStep? && !step.ToggleStep?
    ensures Next(st, step, now).tables.bookings == st.tables.bookings
  {
  }

  lemma {:induction false} StepQueue(st: State, step: Step, now: int, slot: Slot) returns (gone: set<UserId>)
    requires Sound(st) && Enabled(st, step, now) && !step.SaveStep?
    ensures StateCast(Next(st, step, now), slot) == Without(StateCast(st, slot), gone)
  {
    if step.UpdateStep? {
      gone := UpdateQueue(st, step.p, step.newSchedule, step.items, step.removed, now, slot);
    } else if step.ToggleStep? {
      gone := ToggleQueue(st, step.p, step.user, now, slot);
    } else {
      gone := {};
      OtherStepsKeepBookings(st, step, now);
      WithoutNobody(StateCast(st, slot));
    }
  }

  /** Without a save nobody gets a booking, changes position or falls back. */
  lemma {:induction false} StepNotForward(st: State, step: Step, now: int, p: PerfId, u: UserId)
    requires Sound(st) && Enabled(st, step, now) && !step.SaveStep?
    ensures NotForward(BookingOf(st.tables.bookings, p, u), BookingOf(Next(st, step, now).tables.bookings, p, u))
  {
    if step.UpdateStep? {
      if Updates(st, step.p, step.newSchedule, step.items, step.removed, now) {
        UpdateKeeps(st, step.p, step.newSchedule, step.items, step.removed, now);
        UpdateFalls(st, step.p, step.newSchedule, step.items, step.removed, now, p, u);
      }
    } else if step.ToggleStep? {
      ToggleTables(st, step.p, step.user, now);
      if Next(st, step, now).tables != st.tables {
        CancelNotForward(st, BookingOf(st.tables.bookings, step.p, step.user).value, now, p, u);
      }
    } else {
      OtherStepsKeepBookings(st, step, now);
    }
  }

  // ---- whole runs between two saves ---------------------------------------------------------

  /** Over any run without a save, each cast list ends up as a subsequence of what it was. */
  lemma {:induction false} QueueOnlyShrinks(st: State, trace: Trace, slot: Slot) returns (gone: set<UserId>)
    requires Sound(st) && Possible(st, trace)
    requires forall i :: 0 <= i < |trace| ==> !trace[i].0.SaveStep?
    ensures Sound(After(st, trace))
    ensures StateCast(After(st, trace), slot) == Without(StateCast(st, slot), gone)
  {
    if trace == [] {
      gone := {};
      WithoutNobody(StateCast(st, slot));
    } else {
      var init, last := trace[..|trace| - 1], trace[|trace| - 1];
      var first := QueueOnlyShrinks(st, init, slot);
      var second := StepQueue(After(st, init), last.0, last.1, slot);
      RunSound(st, trace);
      WithoutTwice(StateCast(st, slot), first, second);
      gone := first + second;
    }
  }

  /** u comes before v in the list. */
  predicate Ahead(cast: seq<CastEntry>, u: UserId, v: UserId) {
    u in Ids(cast) && v in Ids(cast) && IndexOf(Ids(cast), u) < IndexOf(Ids(cast), v)
  }

  /** Of two users still in the queue, the one in front was in front before. */
  lemma {:induction false} NobodyOvertakes(st: State, trace: Trace, slot: Slot, u: UserId, v: UserId)
    requires Sound(st) && Possible(st, trace)
    requires forall i :: 0 <= i < |trace| ==> !trace[i].0.SaveStep?
    ensures Ahead(StateCast(After(st, trace), slot), u, v) ==> Ahead(StateCast(st, slot), u, v)
  {
    var gone := QueueOnlyShrinks(st, trace, slot);
    CastIndex(st.tables.bookings, slot, u);
    WithoutAhead(StateCast(st, slot), gone, u, v);
  }

  lemma {:induction false} WithoutAhead(cast: seq<CastEntry>, gone: set<UserId>, u: UserId, v: UserId)
    requires NoDup(Ids(cast))
    ensures Ahead(Without(cast, gone), u, v) ==> Ahead(cast, u, v)
  {
    var kept := Without(cast, gone);
    if Ahead(kept, u, v) {
      var i, j := WithoutPair(cast, gone, IndexOf(Ids(kept), u), IndexOf(Ids(kept), v));
      IndexOfUnique(Ids(cast), i);
      IndexOfUnique(Ids(cast), j);
    }
  }

  lemma {:induction false} WithoutPair(cast: seq<CastEntry>, gone: set<UserId>, i: nat, j: nat)
    returns (i': nat, j': nat)
    requires i < j < |Without(cast, gone)|
    ensures i' < j' < |cast| && cast[i'] == Without(cast, gone)[i] && cast[j'] == Without(cast, gone)[j]
  {
    var init := cast[..|cast| - 1];
    if j < |Without(init, gone)| {
      i', j' := WithoutPair(init, gone, i, j);
    } else {
      i' := WithoutIndex(init, gone, i);
      j' := |cast| - 1;
    }
  }

  // ---- who is promoted, who is demoted ------------------------------------------------------

  /** Whoever stands in front of a regular user is regular, gaps or not. */
  lemma {:induction false} FrontIsRegular(st: State, slot: Slot, u: UserId, v: UserId)
    requires Sound(st) && Ahead(StateCast(st, slot), u, v)
    ensures RegularAt(st, slot, v) ==> RegularAt(st, slot, u)
  {
    var ids := Ids(StateCast(st, slot));
    CastIndex(st.tables.bookings, slot, u);
    CastIndex(st.tables.bookings, slot, v);
    AscendingPair(At(st.tables.bookings, slot), IndexOf(ids, u), IndexOf(ids, v));
  }

  /**
    Promotions follow standby order: if v is regular after a run without a save, then so is everybody who stood in
    front of v before it and is still in line.
  */
  lemma {:induction false} PromotedInOrder(st: State, trace: Trace, slot: Slot, u: UserId, v: UserId)
    requires Sound(st) && Possible(st, trace)
    requires forall i :: 0 <= i < |trace| ==> !trace[i].0.SaveStep?
    requires Ahead(StateCast(st, slot), u, v)
    ensures RegularAt(After(st, trace), slot, v) && u in Ids(StateCast(After(st, trace), slot)) ==>
              RegularAt(After(st, trace), slot, u)
  {
    var st' := After(st, trace);
    RunSound(st, trace);
    NobodyOvertakes(st, trace, slot, v, u);
    CastIndex(st'.tables.bookings, slot, v);
    if RegularAt(st', slot, v) && u in Ids(StateCast(st', slot)) {
      DifferentPlaces(Ids(StateCast(st', slot)), u, v);
      FrontIsRegular(st', slot, u, v);
    }
  }

  lemma {:induction false} DifferentPlaces(ids: seq<UserId>, u: UserId, v: UserId)
    requires u in ids && v in ids && u != v
    ensures IndexOf(ids, u) < IndexOf(ids, v) || IndexOf(ids, v) < IndexOf(ids, u)
  {
    assert ids[IndexOf(ids, u)] == u && ids[IndexOf(ids, v)] == v;
  }

  /**
    Over any run without a save, whoever is booked afterwards was booked there before, at the same place or further
    back.
  */
  lemma {:induction false} RunNotForward(st: State, trace: Trace, p: PerfId, u: UserId)
    requires Sound(st) && Possible(st, trace)
    requires forall i :: 0 <= i < |trace| ==> !trace[i].0.SaveStep?
    ensures NotForward(BookingOf(st.tables.bookings, p, u), BookingOf(After(st, trace).tables.bookings, p, u))
  {
    if trace != [] {
      var init, last := trace[..|trace| - 1], trace[|trace| - 1];
      RunNotForward(st, init, p, u);
      RunSound(st, init);
      StepNotForward(After(st, init), last.0, last.1, p, u);
    }
  }

  /** A regular user who is still booked afterwards is still regular, unless the quantity shrank. */
  lemma {:induction false} NobodyDemoted(st: State, trace: Trace, slot: Slot, u: UserId)
    requires Sound(st) && Possible(st, trace)
    requires forall i :: 0 <= i < |trace| ==> !trace[i].0.SaveStep?
    ensures RegularAt(st, slot, u) && BookingOf(After(st, trace).tables.bookings, slot.perf, u).Some? ==>
              || RegularAt(After(st, trace), slot, u)
              || QuantityAt(After(st, trace).quantities, slot) < QuantityAt(st.quantities, slot)
  {
    RunNotForward(st, trace, slot.perf, u);
  }
}
