/** What holds of the database in every reachable state, and how each service call keeps it. */
module Invariant {
  import opened Positions
  import opened Tables
  import opened CastDiff
  import opened BookingLogs
  import opened SaveItem
  import opened ApplyChanges
  import opened CastSave
  import opened SetupChange
  import opened Notices
  import opened NoticeSteps
  import opened Store

  /** Foreign keys and unique indexes. */
  ghost predicate References(st: State) {
    && NoDup(Order(st.catalog))
    && (forall slot :: slot in st.quantities ==> slot.perf in st.schedule && slot.key in Order(st.catalog))
    && UniqueBookings(st.tables.bookings)
    && (forall b :: b in st.tables.bookings ==> b.user in st.verified)
    && (forall k :: k in st.requests ==> k.0 in st.schedule && k.1 in st.verified)
    && (forall r :: r in st.tables.logs && r.perf.Some? ==> r.perf.value in st.schedule)
  }

  /** Log and bookings agree about everybody. */
  ghost predicate Faithful(st: State) {
    forall p, u :: Agree(st.tables, st.quantities, p, u)
  }

  /** Nobody is rejected and booked at once. */
  ghost predicate RejectedFree(st: State) {
    forall k :: k in st.requests && st.requests[k] ==> BookingOf(st.tables.bookings, k.0, k.1).None?
  }

  /** What holds after any history at all: every service call keeps it, whatever it is given. */
  ghost predicate Sound(st: State) {
    && References(st)
    && OnSetup(st.tables.bookings, st.quantities)
    && Ordered(st.tables.bookings)
    && RejectedFree(st)
    && Stamped(st.tables.logs, st.now)
  }

  /** What the booking-status job relies on, about everybody. */
  ghost predicate NoticesSound(logs: seq<LogRow>) {
    forall p, u :: NoticesOk(logs, p, u)
  }

  /** What holds as long as transactions are told apart by their times and saves are good ones. */
  ghost predicate Inv(st: State) {
    Sound(st) && GapFree(st.tables.bookings) && Faithful(st) && NoticesSound(st.tables.logs)
  }

  /** A transaction writes about nobody who was told something written at the same time. */
  ghost predicate Timely(a: seq<LogRow>, b: seq<LogRow>, now: int) {
    forall p, u :: TimelyAbout(a, b, now, p, u)
  }

  // ---- the setup as the service reads it ----------------------------------------------------

  lemma {:induction false} ItemsAmongKeys(keys: seq<PositionKey>, qs: Quantities, p: PerfId, key: PositionKey)
    ensures key in Keys(ItemsAmong(keys, qs, p)) <==> key in keys && Slot(p, key) in qs
  {
    if keys != [] {
      var init, last := keys[..|keys| - 1], keys[|keys| - 1];
      assert keys == init + [last];
      ItemsAmongKeys(init, qs, p, key);
      var items := ItemsAmong(init, qs, p);
      if Slot(p, last) in qs {
      } else {
        assert items + [] == items;
      }
    }
  }

  lemma {:induction false} ItemsAmongNoDup(keys: seq<PositionKey>, qs: Quantities, p: PerfId)
    requires NoDup(keys)
    ensures NoDup(Keys(ItemsAmong(keys, qs, p)))
  {
    if keys != [] {
      var init, last := keys[..|keys| - 1], keys[|keys| - 1];
      ItemsAmongNoDup(init, qs, p);
      ItemsAmongKeys(init, qs, p, last);
      var items := ItemsAmong(init, qs, p);
      if Slot(p, last) in qs {
        assert (Keys(items) + [last])[..|items|] == Keys(items);
      } else {
        assert items + [] == items;
      }
    }
  }

  lemma {:induction false} ItemsAmongQuantity(keys: seq<PositionKey>, qs: Quantities, p: PerfId, i: nat)
    requires i < |ItemsAmong(keys, qs, p)|
    ensures var item := ItemsAmong(keys, qs, p)[i]; Slot(p, item.key) in qs && item.quantity == qs[Slot(p, item.key)]
  {
    if i < |ItemsAmong(keys[..|keys| - 1], qs, p)| {
      ItemsAmongQuantity(keys[..|keys| - 1], qs, p, i);
    }
  }

  /** No position of the setup is lost or doubled, and each comes with its stored quantity. */
  lemma {:induction false} ItemsAmongOk(keys: seq<PositionKey>, qs: Quantities, p: PerfId)
    requires NoDup(keys)
    ensures NoDup(Keys(ItemsAmong(keys, qs, p)))
    ensures forall i :: 0 <= i < |ItemsAmong(keys, qs, p)| ==>
              var item := ItemsAmong(keys, qs, p)[i]; Slot(p, item.key) in qs && item.quantity == qs[Slot(p, item.key)]
  {
    ItemsAmongNoDup(keys, qs, p);
    forall i | 0 <= i < |ItemsAmong(keys, qs, p)|
      ensures var item := ItemsAmong(keys, qs, p)[i]; Slot(p, item.key) in qs && item.quantity == qs[Slot(p, item.key)]
    {
      ItemsAmongQuantity(keys, qs, p, i);
    }
  }

  // ---- saving a cast ------------------------------------------------------------------------

  function ChangesOf(st: State, p: PerfId, payload: Payload): seq<Change> {
    SaveChanges(p, GetSetup(st, p), payload)
  }

  /** The save passes all checks of the service and the database. */
  predicate Succeeds(st: State, p: PerfId, payload: Payload, now: int) {
    && p in st.schedule && st.schedule[p] >= now
    && AllAcceptable(ChangesOf(st, p, payload), st.verified.Keys)
  }

  /** What a caller has to observe, and the service does not check. */
  ghost predicate GoodSave(st: State, p: PerfId, payload: Payload) {
    LeavesNoGap(ChangesOf(st, p, payload)) && NobodySilent(st, p, payload)
  }

  ghost predicate NobodySilent(st: State, p: PerfId, payload: Payload) {
    forall i, u :: !SilentPromotion(st.tables.bookings, st.quantities, ChangesOf(st, p, payload), p, i, u)
  }

  lemma {:induction false} SaveQuantities(qs: Quantities, p: PerfId, items: seq<SetupItem>, payload: Payload)
    requires forall i :: 0 <= i < |items| ==>
               Slot(p, items[i].key) in qs && items[i].quantity == qs[Slot(p, items[i].key)]
    ensures RunQuantities(qs, SaveChanges(p, items, payload)) == qs
    ensures Referenced(qs, SaveChanges(p, items, payload))
  {
    if items != [] {
      var init, changes := items[..|items| - 1], SaveChanges(p, items, payload);
      assert Init(changes) == SaveChanges(p, init, payload);
      SaveQuantities(qs, p, init, payload);
    }
  }

  /** The changes of a save are well formed and reach every position the performance has bookings on. */
  lemma {:induction false} SaveShape(st: State, p: PerfId, payload: Payload)
    requires References(st) && OnSetup(st.tables.bookings, st.quantities)
    requires AllAcceptable(ChangesOf(st, p, payload), st.verified.Keys)
    ensures WellFormed(ChangesOf(st, p, payload), p)
    ensures Covers(st.tables.bookings, ChangesOf(st, p, payload), p)
    ensures RunQuantities(st.quantities, ChangesOf(st, p, payload)) == st.quantities
    ensures Referenced(st.quantities, ChangesOf(st, p, payload))
  {
    var items := GetSetup(st, p);
    ItemsAmongOk(Order(st.catalog), st.quantities, p);
    SaveChangesWellFormed(p, items, payload, st.verified.Keys);
    SaveQuantities(st.quantities, p, items, payload);
    forall slot: Slot | slot.perf == p && !Touched(ChangesOf(st, p, payload), slot)
      ensures At(st.tables.bookings, slot) == []
    {
      SaveChangesTouched(p, items, payload, slot);
      ItemsAmongKeys(Order(st.catalog), st.quantities, p, slot.key);
      AtNone(st.tables.bookings, slot);
    }
  }

  /** The log agrees with the bookings about a user afterwards exactly if no position promotes the user silently. */
  lemma {:induction false} SaveFaithfulFor(st: State, p: PerfId, payload: Payload, now: int, q: PerfId, u: UserId)
    requires Sound(st) && Faithful(st) && Succeeds(st, p, payload, now)
    ensures var changes := ChangesOf(st, p, payload);
            Agree(Run(st.tables, changes, now), st.quantities, q, u)
            <==> (q == p ==> !exists i :: SilentPromotion(st.tables.bookings, st.quantities, changes, p, i, u))
  {
    var changes := ChangesOf(st, p, payload);
    SaveShape(st, p, payload);
    SaveAgree(st, changes, p, now, q, u);
    SilentlyPromotedIff(st.tables.bookings, st.quantities, changes, p, u);
  }

  lemma {:induction false} SilentBreaks(st: State, p: PerfId, payload: Payload, now: int, i: nat, u: UserId)
    requires Sound(st) && Faithful(st) && Succeeds(st, p, payload, now)
    ensures SilentPromotion(st.tables.bookings, st.quantities, ChangesOf(st, p, payload), p, i, u) ==>
              !Agree(Run(st.tables, ChangesOf(st, p, payload), now), st.quantities, p, u)
  {
    SaveFaithfulFor(st, p, payload, now, p, u);
  }

  lemma {:induction false} NobodySilentKeeps(st: State, p: PerfId, payload: Payload, now: int, q: PerfId, u: UserId)
    requires Sound(st) && Faithful(st) && Succeeds(st, p, payload, now) && NobodySilent(st, p, payload)
    ensures Agree(Run(st.tables, ChangesOf(st, p, payload), now), st.quantities, q, u)
  {
    SaveFaithfulFor(st, p, payload, now, q, u);
  }

  lemma {:induction false} SaveFaithful(st: State, p: PerfId, payload: Payload, now: int)
    requires Sound(st) && Faithful(st) && Succeeds(st, p, payload, now)
    ensures Faithful(st.(tables := Run(st.tables, ChangesOf(st, p, payload), now))) <==> NobodySilent(st, p, payload)
  {
    var st' := st.(tables := Run(st.tables, ChangesOf(st, p, payload), now));
    if NobodySilent(st, p, payload) {
      forall q, u ensures Agree(st'.tables, st'.quantities, q, u) {
        NobodySilentKeeps(st, p, payload, now, q, u);
      }
    } else {
      var i, u :| SilentPromotion(st.tables.bookings, st.quantities, ChangesOf(st, p, payload), p, i, u);
      SilentBreaks(st, p, payload, now, i, u);
      assert !Agree(st'.tables, st'.quantities, p, u);
    }
  }

  lemma {:induction false} SaveAgree(st: State, changes: seq<Change>, p: PerfId, now: int, q: PerfId, u: UserId)
    requires Sound(st) && Faithful(st) && WellFormed(changes, p) && Referenced(st.quantities, changes)
    requires RunQuantities(st.quantities, changes) == st.quantities
    ensures Agree(Run(st.tables, changes, now), st.quantities, q, u)
            <==> (q == p ==> !SilentlyPromoted(st.tables.bookings, st.quantities, changes, u))
  {
    assert Agree(st.tables, st.quantities, q, u);
    if q == p {
      RunAgree(st.tables, st.quantities, changes, now, p, u);
    } else {
      RunAgreeElsewhere(st.tables, st.quantities, changes, now, p, q, u);
    }
  }

  // ---- what every list of changes keeps -----------------------------------------------------

  lemma {:induction false} RunMember(rows: seq<Booking>, changes: seq<Change>, b: Booking)
    requires b in RunRows(rows, changes)
    ensures b in rows || (Touched(changes, b.slot) && b.user in UsersIn(changes, 0))
  {
    if changes != [] {
      var c := Last(changes);
      if b.slot.perf != c.slot.perf || b.user !in Ids(c.Cast()) {
        RecastOther(RunRows(rows, Init(changes)), c.slot, c.Cast(), b);
        RunMember(rows, Init(changes), b);
      }
    }
  }

  lemma {:induction false} RunLogPerf(t: CastTables, changes: seq<Change>, p: PerfId, now: int, r: LogRow)
    requires WellFormed(changes, p) && r in Run(t, changes, now).logs
    ensures r in t.logs || r.perf == Some(p)
  {
    if changes != [] {
      var before, c := Run(t, Init(changes), now), Last(changes);
      if r in before.logs {
        RunLogPerf(t, Init(changes), p, now, r);
      } else {
        var prior := CastOf(before.bookings, c.slot);
        var ts := if c.newCast.None? then Span(prior, 0, |prior|, Unbook)
                  else Diff(prior, c.newCast.value, c.quantity, c.oldQuantity);
      }
    }
  }

  lemma {:induction false} RunNotices(t: CastTables, changes: seq<Change>, now: int)
    requires NoticesSound(t.logs)
    ensures NoticesSound(Run(t, changes, now).logs) <==> Timely(t.logs, Run(t, changes, now).logs, now)
  {
    RunExtends(t, changes, now);
    ExtendsNoticesSound(t.logs, Run(t, changes, now).logs, now);
  }

  lemma {:induction false} ExtendsNoticesSound(a: seq<LogRow>, b: seq<LogRow>, now: int)
    requires NoticesSound(a) && Extends(a, b, now)
    ensures NoticesSound(b) <==> Timely(a, b, now)
  {
    forall p, u ensures NoticesOk(b, p, u) <==> TimelyAbout(a, b, now, p, u) {
      assert NoticesOk(a, p, u);
      ExtendsNoticesOk(a, b, now, p, u);
    }
  }

  /** The parts of the invariant that no list of well-formed changes can break. */
  lemma {:induction false} RunKeeps(st: State, changes: seq<Change>, p: PerfId, now: int)
    requires Sound(st)
    requires WellFormed(changes, p) && p in st.schedule && UsersIn(changes, 0) <= st.verified.Keys && st.now <= now
    ensures References(st.(tables := Run(st.tables, changes, now)))
    ensures Ordered(Run(st.tables, changes, now).bookings) && Stamped(Run(st.tables, changes, now).logs, now)
  {
    var tables := Run(st.tables, changes, now);
    RunBookings(st.tables, changes, now);
    RunInvariants(st.tables.bookings, changes, p);
    RunExtends(st.tables, changes, now);
    ExtendsStamped(st.tables.logs, tables.logs, st.now, now);
    forall b | b in tables.bookings ensures b.user in st.verified {
      RunMember(st.tables.bookings, changes, b);
    }
    forall r | r in tables.logs && r.perf.Some? ensures r.perf.value in st.schedule {
      RunLogPerf(st.tables, changes, p, now, r);
    }
  }

  lemma {:induction false} ElsewhereSame(rows: seq<Booking>, changes: seq<Change>, p: PerfId, q: PerfId, u: UserId)
    requires WellFormed(changes, p) && UniqueBookings(rows) && Ordered(rows) && q != p
    ensures BookingOf(RunRows(rows, changes), q, u) == BookingOf(rows, q, u)
  {
    RunBookingUnlisted(rows, changes, p, q, u);
    if BookingOf(rows, q, u).Some? {
      TouchedPerf(changes, p, BookingOf(rows, q, u).value.slot);
    }
  }

  lemma {:induction false} TouchedPerf(changes: seq<Change>, p: PerfId, slot: Slot)
    requires WellFormed(changes, p)
    ensures Touched(changes, slot) ==> slot.perf == p
  {
    if changes != [] {
      TouchedPerf(Init(changes), p, slot);
    }
  }

  // ---- SaveCast: the exact condition --------------------------------------------------------

  lemma {:induction false} SaveUsersKnown(changes: seq<Change>, users: set<UserId>)
    requires AllAcceptable(changes, users)
    ensures UsersIn(changes, 0) <= users
  {
    if changes != [] {
      assert Acceptable(Last(changes), users);
      forall i | 0 <= i < |Init(changes)| ensures Acceptable(Init(changes)[i], users) {
        assert Acceptable(changes[i], users);
      }
      SaveUsersKnown(Init(changes), users);
    }
  }

  lemma {:induction false} SaveOnSetup(st: State, p: PerfId, payload: Payload)
    requires References(st) && OnSetup(st.tables.bookings, st.quantities)
    ensures OnSetup(RunRows(st.tables.bookings, ChangesOf(st, p, payload)), st.quantities)
  {
    var changes := ChangesOf(st, p, payload);
    forall b | b in RunRows(st.tables.bookings, changes) ensures b.slot in st.quantities {
      RunMember(st.tables.bookings, changes, b);
      SaveChangesTouched(p, GetSetup(st, p), payload, b.slot);
      ItemsAmongKeys(Order(st.catalog), st.quantities, p, b.slot.key);
    }
  }

  lemma {:induction false} SaveRejectedFree(st: State, p: PerfId, payload: Payload, notBooked: seq<UserId>)
    requires Sound(st) && WellFormed(ChangesOf(st, p, payload), p)
    ensures var rows := RunRows(st.tables.bookings, ChangesOf(st, p, payload));
            var requests := ApplyNotbooked(st.requests, p, notBooked, rows);
            forall k :: k in requests && requests[k] ==> BookingOf(rows, k.0, k.1).None?
  {
    var changes := ChangesOf(st, p, payload);
    var rows := RunRows(st.tables.bookings, changes);
    var requests := ApplyNotbooked(st.requests, p, notBooked, rows);
    forall k | k in requests && requests[k] ensures BookingOf(rows, k.0, k.1).None? {
      if k.0 != p {
        assert st.requests[k];
        ElsewhereSame(st.tables.bookings, changes, p, k.0, k.1);
      }
    }
  }

  /** What a save keeps in any case. */
  lemma {:induction false} SaveCastKeeps(st: State, p: PerfId, payload: Payload, notBooked: seq<UserId>, now: int)
    requires Sound(st) && st.now <= now && Succeeds(st, p, payload, now)
    ensures var (st', outcome) := SaveCast(st, p, payload, notBooked, now);
            && outcome == Done && st'.now == now && st'.quantities == st.quantities
            && st'.tables == Run(st.tables, ChangesOf(st, p, payload), now)
            && Sound(st')
  {
    var changes, st' := ChangesOf(st, p, payload), SaveCast(st, p, payload, notBooked, now).0;
    SaveShape(st, p, payload);
    SaveUsersKnown(changes, st.verified.Keys);
    RunKeeps(st, changes, p, now);
    assert References(st');
    RunBookings(st.tables, changes, now);
    SaveOnSetup(st, p, payload);
    SaveRejectedFree(st, p, payload, notBooked);
  }

  /**
    Saving a cast keeps the invariant exactly when the payload leaves no gap and promotes nobody silently, and nobody
    written about was told something at the same time. Every other part of the invariant it keeps in any case.
  */
  lemma {:induction false} SaveCastInv(st: State, p: PerfId, payload: Payload, notBooked: seq<UserId>, now: int)
    requires Inv(st) && st.now <= now && Succeeds(st, p, payload, now)
    ensures var (st', outcome) := SaveCast(st, p, payload, notBooked, now);
            && outcome == Done
            && (Inv(st') <==> GoodSave(st, p, payload) && Timely(st.tables.logs, st'.tables.logs, now))
  {
    var changes, st' := ChangesOf(st, p, payload), SaveCast(st, p, payload, notBooked, now).0;
    SaveCastKeeps(st, p, payload, notBooked, now);
    assert GapFree(st'.tables.bookings) <==> LeavesNoGap(changes) by {
      SaveShape(st, p, payload);
      RunBookings(st.tables, changes, now);
      SaveGapFree(st.tables.bookings, changes, p);
    }
    assert Faithful(st') <==> NobodySilent(st, p, payload) by {
      SaveFaithful(st, p, payload, now);
    }
    RunNotices(st.tables, changes, now);
  }
}
