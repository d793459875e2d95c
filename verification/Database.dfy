/**
  The service calls as they run: statements on tables, one position and one row at a time. Every method is proved to
  have exactly the effect of the function of the same name in module Store.
*/
module Database {
  import opened Positions
  import opened Tables
  import opened CastDiff
  import opened BookingLogs
  import opened SaveItem
  import opened ApplyChanges
  import opened CastSave
  import opened SetupChange
  import opened SelfService
  import opened FormData
  import opened Notices
  import opened NoticeSteps
  import opened Store
  import opened Invariant
  import opened Preservation
  import opened UsersStatus
  import opened Jobs
  import opened Requests

  lemma {:induction false} ItemsAmongConcat(a: seq<PositionKey>, b: seq<PositionKey>, qs: Quantities, p: PerfId)
    ensures ItemsAmong(a + b, qs, p) == ItemsAmong(a, qs, p) + ItemsAmong(b, qs, p)
  {
    if b == [] {
      assert a + b == a;
    } else {
      assert (a + b)[..|a + b| - 1] == a + b[..|b| - 1];
      ItemsAmongConcat(a, b[..|b| - 1], qs, p);
    }
  }

  lemma {:induction false} ItemsAmongStep(kind: PositionType, ids: seq<ElementId>, i: nat, qs: Quantities, p: PerfId)
    requires i < |ids|
    ensures ItemsAmong(KeysOfKind(kind, ids[..i + 1]), qs, p)
            == ItemsAmong(KeysOfKind(kind, ids[..i]), qs, p)
               + var slot := Slot(p, PositionKey(kind, ids[i]));
                 if slot in qs then [SetupItem(slot.key, qs[slot])] else []
  {
    assert ids[..i + 1][..i] == ids[..i];
    assert KeysOfKind(kind, ids[..i + 1])[..i] == KeysOfKind(kind, ids[..i]);
  }

  /** The items carry the quantities stored for their positions. */
  predicate StoredQuantities(p: PerfId, setup: seq<SetupItem>, qs: Quantities) {
    forall i :: 0 <= i < |setup| ==> QuantityAt(qs, Slot(p, setup[i].key)) == setup[i].quantity
  }

  lemma {:induction false} SetupQuantities(catalog: Catalog, qs: Quantities, p: PerfId)
    requires NoDup(Order(catalog))
    ensures StoredQuantities(p, ItemsAmong(Order(catalog), qs, p), qs)
  {
    ItemsAmongOk(Order(catalog), qs, p);
  }

  /** The tables t come from t0 by saving the positions of the setup, all of them acceptable. */
  predicate Applied(t0: CastTables, t: CastTables, p: PerfId, setup: seq<SetupItem>, payload: Payload,
                    users: set<UserId>, now: int) {
    AllAcceptable(SaveChanges(p, setup, payload), users) && t == Run(t0, SaveChanges(p, setup, payload), now)
  }

  /** One more position of a save. */
  lemma {:induction false} AppliedStep(t0: CastTables, t: CastTables, p: PerfId, setup: seq<SetupItem>,
                                       payload: Payload, i: nat, users: set<UserId>, now: int)
    requires i < |setup| && Applied(t0, t, p, setup[..i], payload, users, now)
    ensures var c := SaveChange(p, setup[i], payload);
            if Acceptable(c, users) then Applied(t0, Run1(t, c, now), p, setup[..i + 1], payload, users, now)
            else !AllAcceptable(SaveChanges(p, setup, payload), users)
  {
    assert setup[..i + 1][..i] == setup[..i];
    var next := SaveChanges(p, setup[..i + 1], payload);
    assert Init(next) == SaveChanges(p, setup[..i], payload) && Last(next) == SaveChange(p, setup[i], payload);
  }

  /**
    UNIQUE(performance_id, user_id) holds after the recreated rows are flushed exactly if the list names nobody
    twice.
  */
  lemma {:induction false} FlushUnique(a: seq<Booking>, slot: Slot, cast: seq<CastEntry>)
    requires UniqueBookings(a) && forall x :: x in a ==> !Hit(x, slot.perf, UsersOf(cast))
    ensures UniqueBookings(a + NewRows(slot, cast)) <==> NoDup(Ids(cast))
  {
    if NoDup(Ids(cast)) {
      UniqueConcat(a, slot, cast);
    }
    if UniqueBookings(a + NewRows(slot, cast)) {
      UniqueNoDup(a, slot, cast);
    }
  }

  lemma {:induction false} UniqueNoDup(a: seq<Booking>, slot: Slot, cast: seq<CastEntry>)
    requires UniqueBookings(a + NewRows(slot, cast))
    ensures NoDup(Ids(cast))
  {
    if cast != [] {
      var n := |cast| - 1;
      CastSplit(slot, cast);
      var init, row := a + NewRows(slot, cast[..n]), NewRows(slot, cast)[n];
      assert a + NewRows(slot, cast) == init + [row];
      assert (init + [row])[..|init|] == init;
      UniqueNoDup(a, slot, cast[..n]);
      forall i | 0 <= i < n ensures Ids(cast)[..n][i] != row.user {
        assert NewRows(slot, cast[..n])[i] in init;
      }
    }
  }

  class Database {
    var now: int
    var schedule: map<PerfId, int>
    var catalog: Catalog
    var quantities: Quantities
    var bookings: seq<Booking>
    var logs: seq<LogRow>
    var requests: map<RequestKey, bool>
    var verified: map<UserId, bool>
    var qualified: set<(UserId, PositionKey)>

    function Tables(): CastTables
      reads this
    {
      CastTables(bookings, logs)
    }

    function Model(): State
      reads this
    {
      State(now, schedule, catalog, quantities, Tables(), requests, verified, qualified)
    }

    constructor ()
      ensures Model() == INITIAL
    {
      now, schedule, catalog, quantities := 0, map[], Catalog([], [], []), map[];
      bookings, logs, requests, verified, qualified := [], [], map[], map[], {};
    }

    // ---- the setup --------------------------------------------------------------------------

    method SetupBucket(kind: PositionType, ids: seq<ElementId>, p: PerfId) returns (bucket: seq<SetupItem>)
      ensures bucket == ItemsAmong(KeysOfKind(kind, ids), quantities, p)
    {
      bucket := [];
      for i := 0 to |ids|
        invariant bucket == ItemsAmong(KeysOfKind(kind, ids[..i]), quantities, p)
      {
        var slot := Slot(p, PositionKey(kind, ids[i]));
        ItemsAmongStep(kind, ids, i, quantities, p);
        if slot in quantities {
          bucket := bucket + [SetupItem(slot.key, quantities[slot])];
        }
      }
      assert ids[..|ids|] == ids;
    }

    method GetSetup(p: PerfId) returns (setup: seq<SetupItem>)
      ensures setup == Store.GetSetup(Model(), p)
    {
      var instruments := SetupBucket(Instruments, catalog.instruments, p);
      var voices := SetupBucket(Voices, catalog.voices, p);
      var choirjobs := SetupBucket(Choirjobs, catalog.choirjobs, p);
      setup := instruments + voices + choirjobs;
      var a, b := KeysOfKind(Instruments, catalog.instruments), KeysOfKind(Voices, catalog.voices);
      ItemsAmongConcat(a, b, quantities, p);
      ItemsAmongConcat(a + b, KeysOfKind(Choirjobs, catalog.choirjobs), quantities, p);
    }

    // ---- rewriting one position -------------------------------------------------------------

    method BookingLog(slot: Slot, transitions: seq<Transition>, at: int)
      modifies this`logs
      ensures logs == Logged(old(logs), transitions, slot, at)
    {
      for i := 0 to |transitions|
        invariant logs == old(logs) + LogRows(transitions[..i], |old(logs)|, slot, at)
      {
        var t := transitions[i];
        assert transitions[..i + 1][..i] == transitions[..i];
        logs := logs + [LogRow(|logs|, Some(slot.perf), Some(t.user), t.kind, slot.key, t.fee, at, None)];
      }
      assert transitions[..|transitions|] == transitions;
    }

    /** Deletes the rows of the listed users anywhere on the performance; the new rows stay pending. */
    method RecreateRows(slot: Slot, cast: seq<CastEntry>) returns (pending: seq<Booking>)
      modifies this`bookings
      ensures bookings == WithoutUsers(WithoutSlot(old(bookings), slot), slot.perf, UsersOf(cast))
      ensures pending == NewRows(slot, cast)
    {
      bookings := WithoutSlot(bookings, slot);
      ghost var cleared := bookings;
      pending := [];
      WithoutUsersNone(cleared, slot.perf, UsersOf([]));
      for order := 0 to |cast|
        invariant bookings == WithoutUsers(cleared, slot.perf, UsersOf(cast[..order]))
        invariant pending == NewRows(slot, cast[..order])
      {
        var e := cast[order];
        assert cast[..order + 1][..order] == cast[..order];
        assert Ids(cast[..order + 1]) == Ids(cast[..order]) + [e.user];
        assert UsersOf(cast[..order + 1]) == UsersOf(cast[..order]) + {e.user};
        WithoutUsersTwice(cleared, slot.perf, UsersOf(cast[..order]), {e.user});
        CastSplit(slot, cast[..order + 1]);
        bookings := WithoutUsers(bookings, slot.perf, {e.user});
        pending := pending + [Booking(slot, e.user, order, e.fee)];
      }
      assert cast[..|cast|] == cast;
    }

    static method UnbookAll(prior: seq<CastEntry>) returns (transitions: seq<Transition>)
      ensures transitions == Span(prior, 0, |prior|, Unbook)
    {
      transitions := [];
      for i := 0 to |prior|
        invariant transitions == Span(prior, 0, i, Unbook)
      {
        transitions := transitions + [Transition(prior[i].user, Unbook, prior[i].fee)];
      }
    }

    /**
      The diff engine. Without a cast the position is purged. The flush at the end fails if a user is listed twice
      (unique index) or does not exist (foreign key); then the caller rolls back.
    */
    method SaveCastItem(slot: Slot, newCast: Option<seq<CastEntry>>, oldQuantity: Option<nat>, at: int)
      returns (ok: bool)
      requires UniqueBookings(bookings)
      modifies this`bookings, this`logs
      ensures ok <==> Acceptable(Change(slot, QuantityAt(quantities, slot), newCast, oldQuantity), verified.Keys)
      ensures ok ==> Tables() == SaveItem.SaveCastItem(old(Tables()), slot, QuantityAt(quantities, slot), newCast,
                                                       oldQuantity, at)
      ensures ok ==> UniqueBookings(bookings)
    {
      var prior := CastOf(bookings, slot);
      if newCast.None? {
        WithoutSlotUnique(bookings, slot);
        bookings := WithoutSlot(bookings, slot);
        var transitions := UnbookAll(prior);
        BookingLog(slot, transitions, at);
        return true;
      }
      var cast := newCast.value;
      var quantity := QuantityAt(quantities, slot);
      var transitions := DiffCastTransitions(prior, cast, quantity, oldQuantity);
      BookingLog(slot, transitions, at);
      WithoutSlotUnique(bookings, slot);
      WithoutUsersUnique(WithoutSlot(bookings, slot), slot.perf, UsersOf(cast));
      var pending := RecreateRows(slot, cast);
      FlushUnique(bookings, slot, cast);
      ok := UniqueBookings(bookings + pending) && forall i :: 0 <= i < |pending| ==> pending[i].user in verified;
      KnownUsers(slot, cast, verified.Keys);
      bookings := bookings + pending;
    }

    static lemma {:induction false} KnownUsers(slot: Slot, cast: seq<CastEntry>, users: set<UserId>)
      ensures (forall i :: 0 <= i < |cast| ==> NewRows(slot, cast)[i].user in users)
              <==> forall u :: u in Ids(cast) ==> u in users
    {
      forall i | 0 <= i < |cast| ensures NewRows(slot, cast)[i].user in Ids(cast) {
        assert Ids(cast)[i] == NewRows(slot, cast)[i].user;
      }
      if forall i :: 0 <= i < |cast| ==> NewRows(slot, cast)[i].user in users {
        forall u | u in Ids(cast) ensures u in users {
          var i :| 0 <= i < |cast| && Ids(cast)[i] == u;
          assert NewRows(slot, cast)[i].user in users;
        }
      }
    }

    // ---- saving a cast ----------------------------------------------------------------------

    method ApplyItem(p: PerfId, item: SetupItem, payload: Payload, at: int) returns (ok: bool)
      requires UniqueBookings(bookings) && QuantityAt(quantities, Slot(p, item.key)) == item.quantity
      modifies this`bookings, this`logs
      ensures ok <==> Acceptable(SaveChange(p, item, payload), verified.Keys)
      ensures ok ==> UniqueBookings(bookings) && Tables() == Run1(old(Tables()), SaveChange(p, item, payload), at)
    {
      var entries := if item.key in payload then Some(payload[item.key]) else None;
      ok := SaveCastItem(Slot(p, item.key), entries, None, at);
    }

    /** Runs the diff engine over the positions of the setup; stops at the first that fails. */
    method ApplyCast(p: PerfId, setup: seq<SetupItem>, payload: Payload, at: int) returns (ok: bool)
      requires UniqueBookings(bookings)
      requires StoredQuantities(p, setup, quantities)
      modifies this`bookings, this`logs
      ensures if ok then Applied(old(Tables()), Tables(), p, setup, payload, verified.Keys, at)
              else !AllAcceptable(SaveChanges(p, setup, payload), verified.Keys)
    {
      ok := true;
      for i := 0 to |setup|
        invariant UniqueBookings(bookings)
                  && Applied(old(Tables()), Tables(), p, setup[..i], payload, verified.Keys, at)
      {
        AppliedStep(old(Tables()), Tables(), p, setup, payload, i, verified.Keys, at);
        ok := ApplyItem(p, setup[i], payload, at);
        if !ok {
          return;
        }
      }
      assert setup[..|setup|] == setup;
    }

    /** Clears every rejection of the performance, then rejects the listed users who did not end up booked. */
    method ApplyNotbooked(p: PerfId, ids: seq<UserId>)
      modifies this`requests
      ensures requests == Store.ApplyNotbooked(old(requests), p, ids, bookings)
    {
      requests := map k | k in requests :: if k.0 == p then false else requests[k];
      var notBooked: set<UserId> := {};
      for i := 0 to |ids|
        invariant forall u :: u in notBooked <==> u in ids[..i] && BookingOf(bookings, p, u).None?
      {
        assert ids[..i + 1] == ids[..i] + [ids[i]];
        if BookingOf(bookings, p, ids[i]).None? {
          notBooked := notBooked + {ids[i]};
        }
      }
      assert ids[..|ids|] == ids;
      if notBooked != {} {
        requests := map k | k in requests :: if k.0 == p && k.1 in notBooked then true else requests[k];
      }
    }

    /** The cast part of the transaction: rolled back as a whole if one position fails. */
    method ApplyOrRollBack(p: PerfId, payload: Payload, at: int) returns (ok: bool)
      requires References(Model())
      modifies this`bookings, this`logs
      ensures ok <==> AllAcceptable(ChangesOf(old(Model()), p, payload), verified.Keys)
      ensures Tables() == if ok then Run(old(Tables()), ChangesOf(old(Model()), p, payload), at) else old(Tables())
    {
      var savedBookings, savedLogs := bookings, logs;
      var setup := GetSetup(p);
      SetupQuantities(catalog, quantities, p);
      ok := ApplyCast(p, setup, payload, at);
      if !ok {
        bookings, logs := savedBookings, savedLogs;
      }
    }

    /** The transaction around a save: commits everything or nothing. */
    method CommitCast(p: PerfId, payload: Payload, notBooked: seq<UserId>, at: int) returns (ok: bool)
      requires References(Model())
      modifies this`now, this`bookings, this`logs, this`requests
      ensures ok <==> AllAcceptable(ChangesOf(old(Model()), p, payload), verified.Keys)
      ensures !ok ==> Model() == old(Model())
      ensures ok ==> now == at && Tables() == Run(old(Tables()), ChangesOf(old(Model()), p, payload), at)
      ensures ok ==> requests == Store.ApplyNotbooked(old(requests), p, notBooked, bookings)
    {
      ok := ApplyOrRollBack(p, payload, at);
      if ok {
        ApplyNotbooked(p, notBooked);
        now := at;
      }
    }

    method SaveCast(p: PerfId, sections: seq<(PositionKey, seq<CastEntry>)>, notBooked: seq<UserId>, at: int)
      returns (outcome: Outcome)
      requires References(Model())
      modifies this`now, this`bookings, this`logs, this`requests
      ensures (Model(), outcome) == Store.SaveCast(old(Model()), p, PayloadOf(sections), notBooked, at)
      ensures outcome == Done && DisjointRequest(sections) ==>
                forall i :: Counts(sections, i) && Slot(p, sections[i].0) in quantities ==>
                  At(bookings, Slot(p, sections[i].0)) == NewRows(Slot(p, sections[i].0), sections[i].1)
    {
      if p !in schedule {
        return NotFound;
      }
      if schedule[p] < at {
        return InPast;
      }
      var payload := ReadPayload(sections);
      ghost var before := Model();
      var ok := CommitCast(p, payload, notBooked, at);
      outcome := if ok then Done else Aborted;
      forall i | Counts(sections, i) && Slot(p, sections[i].0) in quantities && ok && DisjointRequest(sections)
        ensures At(bookings, Slot(p, sections[i].0)) == NewRows(Slot(p, sections[i].0), sections[i].1)
      {
        SaveStoresRequest(before, p, sections, notBooked, at, sections[i].0);
      }
    }

    static method ReadPayload(sections: seq<(PositionKey, seq<CastEntry>)>) returns (payload: Payload)
      ensures payload == PayloadOf(sections)
    {
      payload := map[];
      for i := 0 to |sections|
        invariant payload == PayloadOf(sections[..i])
      {
        assert sections[..i + 1][..i] == sections[..i];
        payload := payload[sections[i].0 := sections[i].1];
      }
      assert sections[..|sections|] == sections;
    }

    // ---- changing the setup -----------------------------------------------------------------

    /** Deletes, updates and adds position rows until the performance has exactly the desired ones. */
    method SyncPositions(p: PerfId, items: seq<SetupItem>)
      returns (removedKeys: set<PositionKey>, oldQuantities: Quantities)
      modifies this`quantities
      ensures quantities == Synced(old(quantities), p, Desired(items))
      ensures removedKeys == RemovedKeys(old(quantities), p, Desired(items))
      ensures oldQuantities == map slot | slot in old(quantities) && slot.perf == p :: old(quantities)[slot]
    {
      oldQuantities := map slot | slot in quantities && slot.perf == p :: quantities[slot];
      var desired: map<PositionKey, nat> := map[];
      for i := 0 to |items|
        invariant desired == Desired(items[..i])
      {
        assert items[..i + 1][..i] == items[..i];
        desired := desired[items[i].key := items[i].quantity];
      }
      assert items[..|items|] == items;
      removedKeys := set slot | slot in oldQuantities && slot.key !in desired :: slot.key;
      assert removedKeys == RemovedKeys(quantities, p, desired);
      quantities := map slot | slot in quantities && !(slot.perf == p && slot.key in removedKeys) :: quantities[slot];
      ghost var kept := quantities;
      var pending := desired.Keys;
      while pending != {}
        invariant pending <= desired.Keys
        invariant forall slot :: slot in quantities <==>
                    slot in kept || (slot.perf == p && slot.key in desired.Keys - pending)
        invariant forall slot :: slot in quantities ==>
                    quantities[slot] == if slot.perf == p && slot.key in desired.Keys - pending then desired[slot.key]
                                        else kept[slot]
        decreases pending
      {
        var key :| key in pending;
        quantities := quantities[Slot(p, key) := desired[key]];
        pending := pending - {key};
      }
      SyncedExtensional(old(quantities), p, desired, quantities);
    }

    static lemma {:induction false} SyncedExtensional(qs: Quantities, p: PerfId, desired: map<PositionKey, nat>,
                                                      result: Quantities)
      requires forall slot :: slot in result <==> if slot.perf == p then slot.key in desired else slot in qs
      requires forall slot :: slot in result ==> result[slot] == if slot.perf == p then desired[slot.key] else qs[slot]
      ensures result == Synced(qs, p, desired)
    {
      forall slot: Slot ensures slot in result <==> slot in Synced(qs, p, desired) {
        if slot.perf == p && slot.key in desired {
          assert slot == Slot(p, slot.key);
        }
      }
      forall slot | slot in result ensures result[slot] == Synced(qs, p, desired)[slot] {
        assert slot.perf == p ==> slot == Slot(p, slot.key);
      }
    }

    /** Purges the removed positions, in some order. */
    method PurgeRemoved(p: PerfId, removedKeys: set<PositionKey>, at: int) returns (ghost removed: seq<PositionKey>)
      requires UniqueBookings(bookings)
      modifies this`bookings, this`logs
      ensures Enumerates(removed, removedKeys) && UniqueBookings(bookings)
      ensures Tables() == Run(old(Tables()), PurgeChanges(p, removed), at)
    {
      var rest := removedKeys;
      removed := [];
      while rest != {}
        invariant UniqueBookings(bookings) && Tables() == Run(old(Tables()), PurgeChanges(p, removed), at)
        invariant rest <= removedKeys && Enumerates(removed, removedKeys - rest)
        decreases rest
      {
        var key :| key in rest;
        var ok := SaveCastItem(Slot(p, key), None, None, at);
        PurgeStep(old(Tables()), p, removed, key, at);
        EnumeratesStep(removed, removedKeys - rest, key);
        assert removedKeys - (rest - {key}) == removedKeys - rest + {key};
        removed := removed + [key];
        rest := rest - {key};
      }
      assert removedKeys - rest == removedKeys;
    }

    static lemma {:induction false} EnumeratesStep(list: seq<PositionKey>, keys: set<PositionKey>, key: PositionKey)
      requires Enumerates(list, keys) && key !in keys
      ensures Enumerates(list + [key], keys + {key})
    {
      var longer := list + [key];
      assert longer[..|list|] == list;
      forall i | 0 <= i < |longer| ensures longer[i] in keys + {key} {
        if i < |list| {
          assert longer[i] == list[i];
        }
      }
      assert longer[|list|] == key;
    }

    /** Then every position of the new setup is saved as it stands. */
    method ReconcileSetupChange(p: PerfId, removedKeys: set<PositionKey>, oldQuantities: Quantities, at: int)
      returns (ghost removed: seq<PositionKey>)
      requires UniqueBookings(bookings) && Ordered(bookings) && NoDup(Order(catalog))
      requires forall b :: b in bookings ==> b.user in verified
      modifies this`bookings, this`logs
      ensures Enumerates(removed, removedKeys)
      ensures Tables() == Reconcile(old(Tables()), p, removed, Store.GetSetup(Model(), p), oldQuantities, at)
    {
      removed := PurgeRemoved(p, removedKeys, at);
      PurgedTables(old(Tables()), p, removed, at, verified.Keys);
      KeepAll(p, oldQuantities, at);
    }

    static lemma {:induction false} PurgeStep(t: CastTables, p: PerfId, removed: seq<PositionKey>, key: PositionKey,
                                              now: int)
      ensures Run(t, PurgeChanges(p, removed + [key]), now)
              == Run1(Run(t, PurgeChanges(p, removed), now), Change(Slot(p, key), 0, None, None), now)
    {
      assert (removed + [key])[..|removed|] == removed;
      var next := PurgeChanges(p, removed + [key]);
      assert Init(next) == PurgeChanges(p, removed) && Last(next) == Change(Slot(p, key), 0, None, None);
    }

    static lemma {:induction false} PurgedTables(t: CastTables, p: PerfId, removed: seq<PositionKey>, now: int,
                                                 users: set<UserId>)
      requires UniqueBookings(t.bookings) && Ordered(t.bookings) && NoDup(removed)
      requires forall b :: b in t.bookings ==> b.user in users
      ensures Ordered(Run(t, PurgeChanges(p, removed), now).bookings)
      ensures forall b :: b in Run(t, PurgeChanges(p, removed), now).bookings ==> b.user in users
    {
      var changes := PurgeChanges(p, removed);
      PurgeWellFormed(p, removed);
      RunBookings(t, changes, now);
      RunInvariants(t.bookings, changes, p);
      PurgeStanding(t.bookings, p, removed, map[], Slot(p, PositionKey(Instruments, 0)));
      StandingUsers(t.bookings, map[], changes, p, users);
      forall b | b in RunRows(t.bookings, changes) ensures b.user in users {
        RunMember(t.bookings, changes, b);
      }
    }

    /** The lists are the casts of the positions of the setup, in setup order. */
    static ghost predicate ReadOff(rows: seq<Booking>, p: PerfId, setup: seq<SetupItem>, casts: seq<seq<CastEntry>>) {
      |casts| == |setup| && forall i :: 0 <= i < |setup| ==> casts[i] == CastOf(rows, Slot(p, setup[i].key))
    }

    /** _get_cast_form_data: the cast list of every position of the setup, from one ordered query. */
    static method ReadCasts(rows: seq<Booking>, p: PerfId, setup: seq<SetupItem>) returns (casts: seq<seq<CastEntry>>)
      ensures ReadOff(rows, p, setup, casts)
    {
      var buckets := BucketByPosition(rows, p);
      casts := [];
      for i := 0 to |setup|
        invariant ReadOff(rows, p, setup[..i], casts)
      {
        var cast := Entries(Bucket(buckets, setup[i].key));
        ReadStep(rows, p, setup, i, casts, cast);
        casts := casts + [cast];
      }
      assert setup[..|setup|] == setup;
    }

    static lemma {:induction false} ReadStep(rows: seq<Booking>, p: PerfId, setup: seq<SetupItem>, i: nat,
                                             casts: seq<seq<CastEntry>>, cast: seq<CastEntry>)
      requires i < |setup| && ReadOff(rows, p, setup[..i], casts) && cast == CastOf(rows, Slot(p, setup[i].key))
      ensures ReadOff(rows, p, setup[..i + 1], casts + [cast])
    {
      forall j | 0 <= j < i ensures (casts + [cast])[j] == CastOf(rows, Slot(p, setup[j].key)) {
        assert setup[..i][j] == setup[j];
      }
    }

    /** Reads every cast list once, then saves them back one by one; nothing can fail. */
    method KeepAll(p: PerfId, oldQuantities: Quantities, at: int)
      requires UniqueBookings(bookings) && Ordered(bookings) && NoDup(Order(catalog))
      requires forall b :: b in bookings ==> b.user in verified
      modifies this`bookings, this`logs
      ensures Tables() == Run(old(Tables()), KeepChanges(old(bookings), p, Store.GetSetup(Model(), p), oldQuantities),
                              at)
    {
      var setup := GetSetup(p);
      SetupQuantities(catalog, quantities, p);
      var casts := ReadCasts(bookings, p, setup);
      KeepEach(p, setup, casts, oldQuantities, at);
    }

    /** The first positions of the setup have been saved back. */
    static ghost predicate Kept(t0: CastTables, t: CastTables, p: PerfId, setup: seq<SetupItem>, oldQs: Quantities,
                                at: int) {
      t == Run(t0, KeepChanges(t0.bookings, p, setup, oldQs), at)
    }

    method KeepEach(p: PerfId, setup: seq<SetupItem>, casts: seq<seq<CastEntry>>, oldQuantities: Quantities, at: int)
      requires UniqueBookings(bookings) && Ordered(bookings)
      requires forall b :: b in bookings ==> b.user in verified
      requires StoredQuantities(p, setup, quantities) && ReadOff(bookings, p, setup, casts)
      modifies this`bookings, this`logs
      ensures Kept(old(Tables()), Tables(), p, setup, oldQuantities, at)
    {
      ghost var t0 := Tables();
      for i := 0 to |setup|
        invariant UniqueBookings(bookings) && Kept(t0, Tables(), p, setup[..i], oldQuantities, at)
      {
        KeepItem(t0, p, setup, i, casts[i], oldQuantities, at);
      }
      assert setup[..|setup|] == setup;
    }

    method KeepItem(ghost t0: CastTables, p: PerfId, setup: seq<SetupItem>, i: nat, entries: seq<CastEntry>,
                    oldQuantities: Quantities, at: int)
      requires i < |setup| && UniqueBookings(t0.bookings) && Ordered(t0.bookings) && UniqueBookings(bookings)
      requires forall b :: b in t0.bookings ==> b.user in verified
      requires StoredQuantities(p, setup, quantities) && entries == CastOf(t0.bookings, Slot(p, setup[i].key))
      requires Kept(t0, Tables(), p, setup[..i], oldQuantities, at)
      modifies this`bookings, this`logs
      ensures UniqueBookings(bookings) && Kept(t0, Tables(), p, setup[..i + 1], oldQuantities, at)
    {
      var slot := Slot(p, setup[i].key);
      KeepStep(t0, p, setup, i, oldQuantities, at, verified.Keys);
      var oldQuantity := if slot in oldQuantities then Some(oldQuantities[slot]) else None;
      var ok := SaveCastItem(slot, Some(entries), oldQuantity, at);
    }

    static lemma {:induction false} KeepStep(t: CastTables, p: PerfId, setup: seq<SetupItem>, i: nat,
                                             oldQs: Quantities, now: int, users: set<UserId>)
      requires i < |setup| && UniqueBookings(t.bookings) && Ordered(t.bookings)
      requires forall b :: b in t.bookings ==> b.user in users
      ensures Run(t, KeepChanges(t.bookings, p, setup[..i + 1], oldQs), now)
              == Run1(Run(t, KeepChanges(t.bookings, p, setup[..i], oldQs), now),
                      KeepChange(t.bookings, p, setup[i], oldQs), now)
      ensures Acceptable(KeepChange(t.bookings, p, setup[i], oldQs), users)
    {
      assert setup[..i + 1][..i] == setup[..i];
      var next := KeepChanges(t.bookings, p, setup[..i + 1], oldQs);
      assert Init(next) == KeepChanges(t.bookings, p, setup[..i], oldQs)
        && Last(next) == KeepChange(t.bookings, p, setup[i], oldQs);
      var slot := Slot(p, setup[i].key);
      CastIndex(t.bookings, slot, 0);
      forall u | u in Ids(CastOf(t.bookings, slot)) ensures u in users {
        CastIndex(t.bookings, slot, u);
      }
    }

    static lemma {:induction false} OldQuantitiesSuffice(rows: seq<Booking>, p: PerfId, items: seq<SetupItem>,
                                                         qs: Quantities, own: Quantities)
      requires own == map slot | slot in qs && slot.perf == p :: qs[slot]
      ensures KeepChanges(rows, p, items, own) == KeepChanges(rows, p, items, qs)
    {
      if items != [] {
        OldQuantitiesSuffice(rows, p, items[..|items| - 1], qs, own);
      }
    }

    method UpdateSetup(p: PerfId, items: seq<SetupItem>, at: int) returns (ghost removed: seq<PositionKey>)
      requires References(Model()) && Ordered(bookings)
      modifies this`quantities, this`bookings, this`logs
      ensures Enumerates(removed, RemovedKeys(old(quantities), p, Desired(items)))
      ensures quantities == Synced(old(quantities), p, Desired(items))
      ensures Tables() == Reconcile(old(Tables()), p, removed, Store.GetSetup(Model(), p), old(quantities), at)
    {
      var removedKeys, oldQuantities := SyncPositions(p, items);
      removed := ReconcileSetupChange(p, removedKeys, oldQuantities, at);
      ghost var purged := Run(old(Tables()), PurgeChanges(p, removed), at);
      OldQuantitiesSuffice(purged.bookings, p, Store.GetSetup(Model(), p), old(quantities), oldQuantities);
    }

    method UpdatePerformance(p: PerfId, newSchedule: int, items: seq<SetupItem>, at: int)
      returns (outcome: Outcome, ghost removed: seq<PositionKey>)
      requires References(Model()) && Ordered(bookings)
      modifies this
      ensures outcome == Done ==> Enumerates(removed, RemovedKeys(old(quantities), p, Desired(items)))
      ensures (Model(), outcome) == Store.UpdatePerformance(old(Model()), p, newSchedule, items, removed, at)
    {
      removed := [];
      if p !in schedule {
        return NotFound, [];
      }
      if schedule[p] < at {
        return InPast, [];
      }
      if newSchedule < TomorrowStart(at) || !ValidSetup(Model(), items) {
        return Invalid, [];
      }
      removed := ReplacePerformance(p, newSchedule, items, at);
      outcome := Done;
    }

    method ReplacePerformance(p: PerfId, newSchedule: int, items: seq<SetupItem>, at: int)
      returns (ghost removed: seq<PositionKey>)
      requires References(Model()) && Ordered(bookings)
      modifies this`now, this`schedule, this`quantities, this`bookings, this`logs
      ensures Enumerates(removed, RemovedKeys(old(quantities), p, Desired(items)))
      ensures Model() == Updated(old(Model()), p, newSchedule, items, removed, at)
    {
      removed := UpdateSetup(p, items, at);
      schedule := schedule[p := newSchedule];
      now := at;
    }

    method AddPerformance(p: PerfId, newSchedule: int, items: seq<SetupItem>, at: int)
      modifies this`now, this`schedule, this`quantities
      ensures Model() == Created(old(Model()), p, newSchedule, items, at)
    {
      StorePositions(p, items);
      schedule := schedule[p := newSchedule];
      now := at;
      assert Model().quantities == Created(old(Model()), p, newSchedule, items, at).quantities;
    }

    method StorePositions(p: PerfId, items: seq<SetupItem>)
      modifies this`quantities
      ensures Model() == old(Model()).(quantities := Synced(old(quantities), p, Desired(items)))
    {
      var removedKeys, oldQuantities := SyncPositions(p, items);
      assert quantities == Synced(old(quantities), p, Desired(items));
    }

    method CreatePerformance(p: PerfId, newSchedule: int, items: seq<SetupItem>, at: int) returns (outcome: Outcome)
      modifies this`now, this`schedule, this`quantities
      ensures (Model(), outcome) == Store.CreatePerformance(old(Model()), p, newSchedule, items, at)
    {
      if newSchedule < TomorrowStart(at) || !ValidSetup(Model(), items) {
        return Invalid;
      }
      AddPerformance(p, newSchedule, items, at);
      outcome := Done;
    }

    method DeletePerformance(p: PerfId, at: int) returns (outcome: Outcome)
      modifies this`now, this`schedule, this`quantities, this`logs
      ensures (Model(), outcome) == Store.DeletePerformance(old(Model()), p, at)
    {
      if p !in schedule {
        return NotFound;
      }
      if schedule[p] < at {
        return InPast;
      }
      if HasBookingsOrRequests(Model(), p) {
        return InUse;
      }
      schedule := schedule - {p};
      quantities := map slot | slot in quantities && slot.perf != p :: quantities[slot];
      logs := Orphaned(logs, p);
      now := at;
      outcome := Done;
    }

    // ---- self service -----------------------------------------------------------------------

    method CancelAuthUserBooking(p: PerfId, u: UserId, at: int)
      requires References(Model()) && Ordered(bookings)
      modifies this`bookings, this`logs
      ensures Tables() == CancelBooking(old(Tables()), quantities, p, u, at)
    {
      var booking := BookingOf(bookings, p, u);
      if booking.None? {
        return;
      }
      var b := booking.value;
      var remaining := Entries(SortByOrder(WithoutUsers(At(bookings, b.slot), p, {u})));
      CancelAcceptable(bookings, quantities, b, verified.Keys);
      var ok := SaveCastItem(b.slot, Some(remaining), None, at);
    }

    static lemma {:induction false} CancelAcceptable(rows: seq<Booking>, qs: Quantities, b: Booking, users: set<UserId>)
      requires UniqueBookings(rows) && Ordered(rows) && b in rows
      requires forall x :: x in rows ==> x.user in users
      ensures Acceptable(CancelChange(rows, qs, b), users)
    {
      CancelFits(rows, qs, b);
      var k := CancelIndex(rows, b);
      RemainingCast(rows, b.slot, b.user);
      RemovedUsers(CastOf(rows, b.slot), k);
      assert WellFormed([CancelChange(rows, qs, b)], b.slot.perf) ==> CancelChange(rows, qs, b).Fits(b.slot.perf) by {
        assert Last([CancelChange(rows, qs, b)]) == CancelChange(rows, qs, b);
      }
      forall u | u in Ids(CastWithout(rows, b.slot, b.user)) ensures u in users {
        assert u in UsersOf(CastOf(rows, b.slot));
        CastIndex(rows, b.slot, u);
      }
    }

    method ChangeUserRequestStatus(p: PerfId, u: UserId, at: int) returns (outcome: Outcome)
      requires References(Model()) && Ordered(bookings)
      modifies this`now, this`bookings, this`logs, this`requests
      ensures (Model(), outcome) == Store.Toggle(old(Model()), p, u, at)
    {
      if p !in schedule {
        return NotFound;
      }
      if schedule[p] < at {
        return InPast;
      }
      var statuses := StatusOfUsers(Model(), p, [u], at, false);
      var current := statuses[u];
      if current == Store.Bookable {
        if (p, u) in requests {
          return AlreadyExists;
        }
        requests := requests[(p, u) := false];
      } else if current != Store.NotBookable {
        requests := requests - {(p, u)};
        CancelAuthUserBooking(p, u, at);
      }
      now := at;
      outcome := Done;
    }

    // ---- qualifications ---------------------------------------------------------------------

    /** Removes what is not desired, then adds what is missing. */
    method SyncUserPositions(u: UserId, desired: set<PositionKey>)
      modifies this`qualified
      ensures qualified == Requalified(old(qualified), u, desired)
    {
      var existing := set q | q in qualified && q.0 == u :: q.1;
      var rest := existing;
      while rest != {}
        invariant rest <= existing
        invariant forall q :: q in qualified <==> q in old(qualified) && (q.0 == u ==> q.1 in rest || q.1 in desired)
        decreases rest
      {
        var key :| key in rest;
        if key !in desired {
          qualified := qualified - {(u, key)};
        }
        rest := rest - {key};
      }
      var missing := desired - existing;
      while missing != {}
        invariant missing <= desired - existing
        invariant forall q :: q in qualified <==>
                    if q.0 == u then q.1 in desired && q.1 !in missing else q in old(qualified)
        decreases missing
      {
        var key :| key in missing;
        qualified := qualified + {(u, key)};
        missing := missing - {key};
      }
    }

    // ---- scheduled jobs ---------------------------------------------------------------------

    /** One mail per user, bundling every notice due; then the rows told are marked. */
    method TellUsers(entries: map<Pair, LogRow>, bundles: map<UserId, set<nat>>, at: int) returns (ghost done: set<nat>)
      requires forall u :: u in bundles ==> bundles[u] == IdsOfUser(entries, u)
      modifies this`logs
      ensures logs == Marked(old(logs), done, at)
      ensures forall id :: id in done <==> MarkedFor(Model(), entries, bundles.Keys, id)
    {
      var rest := bundles.Keys;
      done := {};
      MarkedNone(logs, {}, at);
      while rest != {}
        invariant rest <= bundles.Keys && logs == Marked(old(logs), done, at)
        invariant forall id :: id in done <==> MarkedFor(old(Model()), entries, bundles.Keys - rest, id)
        decreases rest
      {
        var u :| u in rest;
        MarkedForStep(old(Model()), entries, bundles.Keys - rest, u);
        if u in verified && verified[u] {
          MarkedTwice(old(logs), done, bundles[u], at);
          logs := Marked(logs, bundles[u], at);
          done := done + bundles[u];
        }
        rest := rest - {u};
        assert bundles.Keys - rest == (bundles.Keys - (rest + {u})) + {u};
      }
      assert bundles.Keys - rest == bundles.Keys;
    }

    /** Whatever the order in which the rows arrive, the result is the same. */
    method NotifyUpcomingBookingStatus(arrival: seq<LogRow>, at: int)
      requires Stamped(logs, now) && Arrives(arrival, Model(), at)
      modifies this`now, this`logs
      ensures Model() == Store.Notify(old(Model()), at)
    {
      var entries := LatestUnnotifiedEntries(arrival);
      var bundles := BundleByUser(entries);
      ghost var done := TellUsers(entries, bundles, at);
      ToldAreMarked(old(Model()), arrival, at, entries, bundles.Keys, done);
      now := at;
    }

    static lemma {:induction false} ToldAreMarked(st: State, arrival: seq<LogRow>, now: int, entries: map<Pair, LogRow>,
                                                  users: set<UserId>, done: set<nat>)
      requires Stamped(st.tables.logs, st.now) && Arrives(arrival, st, now)
      requires forall key ::
                 (if key in entries then Some(entries[key]) else None) == DecisionAbout(arrival, key.0, key.1)
      requires forall u :: u in users <==> exists p: PerfId :: (p, u) in entries
      requires forall id :: id in done <==> MarkedFor(st, entries, users, id)
      ensures done == MarkedIds(st, now)
    {
      forall id ensures id in done <==> id in MarkedIds(st, now) {
        MarkedIdsAre(st, arrival, now, entries, id);
        MarkedForAll(st, entries, users, id);
      }
    }

    /** The row with this id is told to one of the given users. */
    static ghost predicate MarkedFor(st: State, entries: map<Pair, LogRow>, users: set<UserId>, id: nat) {
      exists key :: key in entries && key.1 in users && Mailable(st, key.1) && entries[key].id == id
    }

    static lemma {:induction false} MarkedForStep(st: State, entries: map<Pair, LogRow>, users: set<UserId>, u: UserId)
      ensures forall id :: (MarkedFor(st, entries, users + {u}, id)
                            <==> MarkedFor(st, entries, users, id) || (Mailable(st, u) && id in IdsOfUser(entries, u)))
    {
      forall id
        ensures MarkedFor(st, entries, users + {u}, id)
                <==> MarkedFor(st, entries, users, id) || (Mailable(st, u) && id in IdsOfUser(entries, u))
      {
        if Mailable(st, u) && id in IdsOfUser(entries, u) {
          var key :| key in entries && key.1 == u && entries[key].id == id;
          assert key.1 in users + {u};
        }
      }
    }

    static lemma {:induction false} MarkedForAll(st: State, entries: map<Pair, LogRow>, users: set<UserId>, id: nat)
      requires forall u :: u in users <==> exists p: PerfId :: (p, u) in entries
      ensures MarkedFor(st, entries, users, id)
              <==> (exists key :: key in entries && Mailable(st, key.1) && entries[key].id == id)
    {
      if key :| key in entries && Mailable(st, key.1) && entries[key].id == id {
        assert (key.0, key.1) in entries;
      }
    }

    method PurgeStaleBookingRequests(at: int)
      modifies this`now, this`requests
      ensures Model() == PurgeStaleRequests(old(Model()), at)
    {
      requests := map k | k in requests && !(k.0 in schedule && schedule[k.0] < at) :: requests[k];
      now := at;
    }
  }
}
