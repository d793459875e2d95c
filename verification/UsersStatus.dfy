/** The first batched status evaluator: many users on one performance. */
module UsersStatus {
  import opened Positions
  import opened Tables
  import opened CastSave
  import opened Store
  import opened Bookability
  import opened Invariant

  /** {item.id for item in setup.instruments}, and so on. */
  function SetupPositionIds(setup: seq<SetupItem>): PositionIds {
    map[Instruments := set i | 0 <= i < |setup| && setup[i].key.kind == Instruments :: setup[i].key.id,
        Voices := set i | 0 <= i < |setup| && setup[i].key.kind == Voices :: setup[i].key.id,
        Choirjobs := set i | 0 <= i < |setup| && setup[i].key.kind == Choirjobs :: setup[i].key.id]
  }

  lemma {:induction false} SetupIdsHold(setup: seq<SetupItem>, k: PositionKey)
    ensures HoldsKey(SetupPositionIds(setup), k) <==> k in Keys(setup)
  {
    if HoldsKey(SetupPositionIds(setup), k) {
      var i :| 0 <= i < |setup| && setup[i].key.kind == k.kind && setup[i].key.id == k.id;
      assert Keys(setup)[i] == k;
    }
    if k in Keys(setup) {
      var i :| 0 <= i < |setup| && Keys(setup)[i] == k;
      assert setup[i].key.kind == k.kind && setup[i].key.id == k.id;
    }
  }

  /** The foreign keys make get_setup lose no position. */
  lemma {:induction false} SetupKeys(st: State, p: PerfId)
    requires References(st)
    ensures OfPerformance(SetupPositionIds(GetSetup(st, p)), st.quantities, p)
  {
    AllKinds(SetupPositionIds(GetSetup(st, p)));
    forall k ensures HoldsKey(SetupPositionIds(GetSetup(st, p)), k) <==> Slot(p, k) in st.quantities {
      SetupIdsHold(GetSetup(st, p), k);
      ItemsAmongKeys(Order(st.catalog), st.quantities, p, k);
    }
  }

  /** Every listed user has its sets, filled with the positions read so far. */
  ghost predicate OfUsers(byUser: map<UserId, PositionIds>, users: seq<UserId>, read: set<(UserId, PositionKey)>) {
    forall u :: (u in byUser <==> u in users) && (u in users ==> OfUser(byUser[u], read, u))
  }

  method PositionIdsOfUsers(qualified: set<(UserId, PositionKey)>, users: seq<UserId>)
    returns (byUser: map<UserId, PositionIds>)
    ensures OfUsers(byUser, users, qualified)
  {
    byUser := map u | u in users :: NO_POSITIONS;
    var rest := set q | q in qualified && q.0 in users;
    ghost var wanted := rest;
    NothingRead(byUser, users);
    assert wanted - rest == {};
    while rest != {}
      invariant rest <= wanted && OfUsers(byUser, users, wanted - rest)
      decreases rest
    {
      var row :| row in rest;
      UserRowRead(byUser, users, wanted, rest, row);
      byUser := byUser[row.0 := WithPosition(byUser[row.0], row.1)];
      rest := rest - {row};
    }
  }

  lemma {:induction false} NothingRead(byUser: map<UserId, PositionIds>, users: seq<UserId>)
    requires byUser == map u | u in users :: NO_POSITIONS
    ensures OfUsers(byUser, users, {})
  {
    NoPositions();
  }

  lemma {:induction false} UserRowRead(byUser: map<UserId, PositionIds>, users: seq<UserId>,
                                       wanted: set<(UserId, PositionKey)>,
                                       rest: set<(UserId, PositionKey)>, row: (UserId, PositionKey))
    requires OfUsers(byUser, users, wanted - rest) && row in rest && rest <= wanted && row.0 in users
    ensures OfUsers(byUser[row.0 := WithPosition(byUser[row.0], row.1)], users, wanted - (rest - {row}))
  {
    var byUser' := byUser[row.0 := WithPosition(byUser[row.0], row.1)];
    forall u | u in users ensures OfUser(byUser'[u], wanted - (rest - {row}), u) {
      assert OfUser(byUser[u], wanted - rest, u);
      forall k ensures HoldsKey(byUser'[u], k) <==> (u, k) in wanted - (rest - {row}) {
        assert HoldsKey(byUser[u], k) <==> (u, k) in wanted - rest;
      }
    }
  }

  /** {b.user_id: b for b in bookings of these users on this performance} */
  method BookingsByUser(rows: seq<Booking>, p: PerfId, users: seq<UserId>) returns (byUser: map<UserId, Booking>)
    ensures forall u :: Lookup(byUser, u) == if u in users then BookingOf(rows, p, u) else None
  {
    byUser := map[];
    for i := 0 to |rows|
      invariant forall u :: Lookup(byUser, u) == if u in users then BookingOf(rows[..i], p, u) else None
    {
      assert rows[..i + 1][..i] == rows[..i];
      if rows[i].slot.perf == p && rows[i].user in users {
        byUser := byUser[rows[i].user := rows[i]];
      }
    }
    assert rows[..|rows|] == rows;
  }

  method StatusOfUsers(st: State, p: PerfId, users: seq<UserId>, now: int, keepPast: bool)
    returns (result: map<UserId, Status>)
    requires References(st) && p in st.schedule
    ensures forall u :: u in result <==> u in users
    ensures forall u :: u in users ==> result[u] == StatusShown(st, p, u, now, keepPast)
  {
    if users == [] {
      return map[];
    }
    if st.schedule[p] < now && !keepPast {
      return map u | u in users :: NotBookable;
    }
    result := CurrentStatusOfUsers(st, p, users);
  }

  method RequestsByUser(requests: map<RequestKey, bool>, p: PerfId, users: seq<UserId>)
    returns (byUser: map<UserId, bool>)
    ensures forall u :: Lookup(byUser, u) == if u in users then Lookup(requests, (p, u)) else None
  {
    byUser := map k | k in requests && k.0 == p && k.1 in users :: k.1 := requests[k];
    forall u ensures Lookup(byUser, u) == if u in users then Lookup(requests, (p, u)) else None {
      assert (p, u) in requests && u in users ==> (p, u).1 in byUser;
    }
  }

  method QuantitiesForPerformance(qs: Quantities, p: PerfId) returns (quantities: KeyQuantities)
    ensures forall k :: Lookup(quantities, k) == Lookup(qs, Slot(p, k))
  {
    quantities := map slot | slot in qs && slot.perf == p :: slot.key := qs[slot];
    forall k ensures Lookup(quantities, k) == Lookup(qs, Slot(p, k)) {
      assert Slot(p, k) in qs ==> Slot(p, k).key in quantities;
    }
  }

  method CurrentStatusOfUsers(st: State, p: PerfId, users: seq<UserId>) returns (result: map<UserId, Status>)
    requires References(st)
    ensures forall u :: u in result <==> u in users
    ensures forall u :: u in users ==> result[u] == StatusOf(st, p, u)
  {
    var setupIds := SetupPositionIds(GetSetup(st, p));
    var userPositionIds := PositionIdsOfUsers(st.qualified, users);
    var bookingsByUser := BookingsByUser(st.tables.bookings, p, users);
    var requestsByUser := RequestsByUser(st.requests, p, users);
    var quantityByKey := QuantitiesForPerformance(st.quantities, p);
    SetupKeys(st, p);
    result := map[];
    for i := 0 to |users|
      invariant forall u :: u in result <==> u in users[..i]
      invariant forall u :: u in result ==> result[u] == StatusOf(st, p, u)
    {
      assert users[..i + 1] == users[..i] + [users[i]];
      var status := UserStatus(st, p, users[i], userPositionIds, setupIds, bookingsByUser, requestsByUser,
        quantityByKey);
      result := result[users[i] := status];
    }
    assert users[..|users|] == users;
  }

  /** What the dictionaries of the first evaluator hold about one user. */
  ghost predicate ReadForUser(st: State, p: PerfId, u: UserId, userPositionIds: map<UserId, PositionIds>,
                              setupIds: PositionIds,
                              bookings: map<UserId, Booking>, requests: map<UserId, bool>, quantities: KeyQuantities)
  {
    && u in userPositionIds && OfUser(userPositionIds[u], st.qualified, u) && OfPerformance(setupIds, st.quantities, p)
    && Lookup(bookings, u) == BookingOf(st.tables.bookings, p, u)
    && Lookup(requests, u) == Lookup(st.requests, (p, u))
    && forall k :: Lookup(quantities, k) == Lookup(st.quantities, Slot(p, k))
  }

  /** The body of the loop over the users. */
  method UserStatus(ghost st: State, ghost p: PerfId, u: UserId, userPositionIds: map<UserId, PositionIds>,
                    setupIds: PositionIds,
                    bookings: map<UserId, Booking>, requests: map<UserId, bool>, quantities: KeyQuantities)
    returns (status: Status)
    requires ReadForUser(st, p, u, userPositionIds, setupIds, bookings, requests, quantities)
    ensures status == StatusOf(st, p, u)
  {
    BookableMeansQualified(st, p, u, userPositionIds[u], setupIds);
    if !IsBookable(userPositionIds[u], setupIds) {
      return NotBookable;
    }
    if u in bookings {
      var booking := bookings[u];
      var bookingKey := booking.slot.key;
      assert booking.slot == Slot(p, bookingKey);
      var quantity := if bookingKey in quantities then quantities[bookingKey] else 0;
      assert Lookup(quantities, bookingKey) == Lookup(st.quantities, booking.slot);
      return if booking.order < quantity then Booked(bookingKey) else Standby(bookingKey);
    }
    if u in requests {
      return if requests[u] then Rejected else Requested;
    }
    status := Bookable;
  }
}
