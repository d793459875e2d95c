/** What the other service calls answer and change, in terms of times, rows and lists alone. */
module Answers {
  import opened Positions
  import opened Tables
  import opened CastDiff
  import opened BookingLogs
  import opened SaveItem
  import opened CastSave
  import opened SetupChange
  import opened SelfService
  import opened Notices
  import opened NoticeSteps
  import opened Store
  import opened Invariant
  import opened Preservation
  import opened Requests

  // ---- performances -------------------------------------------------------------------------

  /** The position exists: its id stands in the list of its kind. */
  predicate InCatalog(catalog: Catalog, key: PositionKey) {
    match key.kind
    case Instruments => key.id in catalog.instruments
    case Voices => key.id in catalog.voices
    case Choirjobs => key.id in catalog.choirjobs
  }

  lemma {:induction false} InCatalogMeans(catalog: Catalog, key: PositionKey)
    ensures key in Order(catalog) <==> InCatalog(catalog, key)
  {
    KeyOfKind(Instruments, catalog.instruments, key);
    KeyOfKind(Voices, catalog.voices, key);
    KeyOfKind(Choirjobs, catalog.choirjobs, key);
  }

  lemma {:induction false} KeyOfKind(kind: PositionType, ids: seq<ElementId>, key: PositionKey)
    ensures key in KeysOfKind(kind, ids) <==> key.kind == kind && key.id in ids
  {
    var keys := KeysOfKind(kind, ids);
    if i :| 0 <= i < |ids| && ids[i] == key.id && key.kind == kind {
      assert keys[i] == key;
    }
    if i :| 0 <= i < |keys| && keys[i] == key {
      assert ids[i] == key.id;
    }
  }

  /** What a setup must be: no position twice, each of them existing, between 1 and 99 slots each. */
  predicate GoodItems(catalog: Catalog, items: seq<SetupItem>) {
    && (forall i, j :: 0 <= i < j < |items| ==> items[i].key != items[j].key)
    && forall i :: 0 <= i < |items| ==> InCatalog(catalog, items[i].key) && 1 <= items[i].quantity <= 99
  }

  lemma {:induction false} ValidSetupMeans(st: State, items: seq<SetupItem>)
    ensures ValidSetup(st, items) <==> GoodItems(st.catalog, items)
  {
    forall i | 0 <= i < |items| ensures items[i].key in Order(st.catalog) <==> InCatalog(st.catalog, items[i].key) {
      InCatalogMeans(st.catalog, items[i].key);
    }
    KeysDistinct(items);
  }

  lemma {:induction false} KeysDistinct(items: seq<SetupItem>)
    ensures NoDup(Keys(items)) <==> forall i, j :: 0 <= i < j < |items| ==> items[i].key != items[j].key
  {
    if items != [] {
      var init, n := items[..|items| - 1], |items| - 1;
      KeysDistinct(init);
      assert Keys(items)[..n] == Keys(init);
      assert forall i :: 0 <= i < n ==> Keys(items)[..n][i] == items[i].key == init[i].key;
    }
  }

  /** The earliest time that counts as tomorrow: the next multiple of a day's 86400 seconds. */
  lemma {:induction false} TomorrowMeans(now: int, time: int)
    ensures time >= TomorrowStart(now) <==> time / 86400 > now / 86400
  {
  }

  /** What an update answers: not found, too late, a date before tomorrow or a bad setup, or done. */
  lemma {:induction false} UpdateAnswer(st: State, p: PerfId, schedule: int, items: seq<SetupItem>,
                                        removed: seq<PositionKey>, now: int)
    ensures var (st', outcome) := UpdatePerformance(st, p, schedule, items, removed, now);
            && (outcome == NotFound <==> p !in st.schedule)
            && (outcome == InPast <==> p in st.schedule && st.schedule[p] < now)
            && (outcome == Done
                <==> && p in st.schedule && st.schedule[p] >= now && schedule / 86400 > now / 86400
                     && (forall i, j :: 0 <= i < j < |items| ==> items[i].key != items[j].key)
                     && forall i :: 0 <= i < |items| ==>
                          InCatalog(st.catalog, items[i].key) && 1 <= items[i].quantity <= 99)
            && (outcome == NotFound || outcome == InPast || outcome == Done || outcome == Invalid)
            && (outcome != Done ==> st' == st)
            && (outcome == Done ==>
                  && st' == st.(now := now, schedule := st.schedule[p := schedule], quantities := st'.quantities,
                                tables := st'.tables)
                  && st'.quantities == Created(st, p, schedule, items, now).quantities)
  {
    TomorrowMeans(now, schedule);
    ValidSetupMeans(st, items);
  }

  /** The setup stored afterwards: for this performance what was asked for, for others what it was. */
  lemma {:induction false} SetupMeans(st: State, p: PerfId, schedule: int, items: seq<SetupItem>, now: int, q: PerfId,
                                      key: PositionKey, quantity: nat)
    requires GoodItems(st.catalog, items)
    ensures var qs' := Created(st, p, schedule, items, now).quantities;
            (Slot(q, key) in qs' && qs'[Slot(q, key)] == quantity)
            <==> if q == p then exists i :: 0 <= i < |items| && items[i] == SetupItem(key, quantity)
                 else Slot(q, key) in st.quantities && st.quantities[Slot(q, key)] == quantity
  {
    ValidSetupMeans(st, items);
    SyncExact(st.quantities, p, items, Slot(q, key));
    if i :| 0 <= i < |items| && items[i] == SetupItem(key, quantity) {
      assert Keys(items)[i] == key;
      IndexOfUnique(Keys(items), i);
    }
    if key in Keys(items) {
      assert items[IndexOf(Keys(items), key)].key == key;
    }
  }

  lemma {:induction false} CreateAnswer(st: State, p: PerfId, schedule: int, items: seq<SetupItem>, now: int)
    ensures var (st', outcome) := CreatePerformance(st, p, schedule, items, now);
            && (outcome == Done
                <==> && schedule / 86400 > now / 86400
                     && (forall i, j :: 0 <= i < j < |items| ==> items[i].key != items[j].key)
                     && forall i :: 0 <= i < |items| ==>
                          InCatalog(st.catalog, items[i].key) && 1 <= items[i].quantity <= 99)
            && (outcome == Done || (outcome == Invalid && st' == st))
            && (outcome == Done ==>
                  st' == st.(now := now, schedule := st.schedule[p := schedule], quantities := st'.quantities))
  {
    TomorrowMeans(now, schedule);
    ValidSetupMeans(st, items);
  }

  /** A performance can be deleted as long as nobody is booked on it and nobody has asked for it. */
  lemma {:induction false} DeleteAnswer(st: State, p: PerfId, now: int)
    ensures var (st', outcome) := DeletePerformance(st, p, now);
            && (outcome == NotFound <==> p !in st.schedule)
            && (outcome == InPast <==> p in st.schedule && st.schedule[p] < now)
            && (outcome == InUse
                <==> && p in st.schedule && st.schedule[p] >= now
                     && ((exists b :: b in st.tables.bookings && b.slot.perf == p)
                         || exists u :: (p, u) in st.requests))
            && (outcome == NotFound || outcome == InPast || outcome == InUse || outcome == Done)
            && (outcome != Done ==> st' == st)
            && (outcome == Done ==>
                  && st'.now == now && st'.schedule == st.schedule - {p}
                  && st'.tables.bookings == st.tables.bookings && st'.requests == st.requests
                  && st'.catalog == st.catalog && st'.verified == st.verified && st'.qualified == st.qualified
                  && |st'.tables.logs| == |st.tables.logs|)
  {
    if k :| k in st.requests && k.0 == p {
      assert (p, k.1) in st.requests;
    }
  }

  /** Its positions go with it, and its log rows lose their reference. */
  lemma {:induction false} DeleteRows(st: State, p: PerfId, now: int, slot: Slot, i: nat)
    requires DeletePerformance(st, p, now).1 == Done
    ensures var st' := DeletePerformance(st, p, now).0;
            && (slot in st'.quantities <==> slot in st.quantities && slot.perf != p)
            && (slot in st'.quantities ==> st'.quantities[slot] == st.quantities[slot])
            && (i < |st.tables.logs| && i < |st'.tables.logs| ==>
                  var r := st.tables.logs[i];
                  st'.tables.logs[i] == if r.perf == Some(p) then r.(perf := None) else r)
  {
    if i < |st.tables.logs| {
      OrphanedAt(st.tables.logs, p, i);
    }
  }

  lemma {:induction false} OrphanedAt(logs: seq<LogRow>, p: PerfId, i: nat)
    requires i < |logs|
    ensures Orphaned(logs, p)[i] == if logs[i].perf == Some(p) then logs[i].(perf := None) else logs[i]
  {
    if i < |logs| - 1 {
      OrphanedAt(logs[..|logs| - 1], p, i);
    }
  }

  // ---- self service -------------------------------------------------------------------------

  /** The user holds one of the positions the performance needs. */
  predicate MayBook(st: State, p: PerfId, u: UserId) {
    exists slot | slot in st.quantities :: slot.perf == p && (u, slot.key) in st.qualified
  }

  /** What the toggle answers, and does to the requests: it adds a missing one, and takes back one that is there. */
  lemma {:induction false} ToggleAnswer(st: State, p: PerfId, u: UserId, now: int)
    requires Sound(st)
    ensures var (st', outcome) := Toggle(st, p, u, now);
            && (outcome == NotFound <==> p !in st.schedule)
            && (outcome == InPast <==> p in st.schedule && st.schedule[p] < now)
            && (outcome == Done <==> p in st.schedule && st.schedule[p] >= now)
            && (outcome != Done ==> st' == st)
            && (outcome == Done ==>
                  var booked := exists b :: b in st.tables.bookings && b.slot.perf == p && b.user == u;
                  var requests := if !MayBook(st, p, u) then st.requests
                                  else if booked || (p, u) in st.requests then st.requests - {(p, u)}
                                  else st.requests[(p, u) := false];
                  && st' == st.(now := now, requests := requests, tables := st'.tables)
                  && (!booked || !MayBook(st, p, u) ==> st'.tables == st.tables))
  {
    assert Qualified(st, p, u) <==> MayBook(st, p, u);
    match BookingOf(st.tables.bookings, p, u)
    case Some(b) => assert b in st.tables.bookings;
    case None =>
  }

  lemma {:induction false} ToggleBooked(st: State, p: PerfId, u: UserId, now: int)
    requires p in st.schedule && st.schedule[p] >= now && Qualified(st, p, u)
    requires BookingOf(st.tables.bookings, p, u).Some?
    ensures Toggle(st, p, u, now).0.tables == CancelBooking(st.tables, st.quantities, p, u, now)
  {
  }

  /** A toggle of a booked user takes its booking away. */
  lemma {:induction false} ToggleCancels(st: State, b: Booking, now: int)
    requires Sound(st) && b in st.tables.bookings && MayBook(st, b.slot.perf, b.user)
    requires b.slot.perf in st.schedule && st.schedule[b.slot.perf] >= now
    ensures forall x :: x in Toggle(st, b.slot.perf, b.user, now).0.tables.bookings ==>
              x.slot.perf != b.slot.perf || x.user != b.user
  {
    BookingOfUnique(st.tables.bookings, b);
    assert Qualified(st, b.slot.perf, b.user);
    ToggleBooked(st, b.slot.perf, b.user, now);
    CancelNotForward(st, b, now, b.slot.perf, b.user);
  }

  // ---- users and requests -------------------------------------------------------------------

  /** The positions of one user are replaced, those of others stay. */
  lemma {:induction false} QualifyMeans(qualified: set<(UserId, PositionKey)>, u: UserId, keys: set<PositionKey>,
                                        v: UserId, key: PositionKey)
    ensures (v, key) in Requalified(qualified, u, keys) <==> if v == u then key in keys else (v, key) in qualified
  {
  }

  /** Requests are dropped exactly for performances that are over; nothing else changes. */
  lemma {:induction false} PurgeMeans(st: State, now: int, p: PerfId, u: UserId)
    ensures var st' := PurgeStaleRequests(st, now);
            && ((p, u) in st'.requests <==> (p, u) in st.requests && (p in st.schedule ==> st.schedule[p] >= now))
            && ((p, u) in st'.requests ==> st'.requests[(p, u)] == st.requests[(p, u)])
            && st' == st.(now := now, requests := st'.requests)
  {
  }
}
