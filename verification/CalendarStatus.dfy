/** The second batched status evaluator: one user on many performances. */
module CalendarStatus {
  import opened Positions
  import opened Tables
  import opened Store
  import opened Bookability

  function WithQuantity(quantities: KeyQuantities, key: PositionKey, quantity: nat): KeyQuantities {
    quantities[key := quantity]
  }

  /** The sets and quantities of every eligible performance, filled with the position rows read so far. */
  ghost predicate OfPerformances(ids: map<PerfId, PositionIds>, quantities: map<PerfId, KeyQuantities>,
                                 eligible: seq<PerfId>, qs: Quantities)
  {
    forall p :: (p in ids <==> p in eligible) && (p in quantities <==> p in eligible) &&
                (p in eligible ==>
                   OfPerformance(ids[p], qs, p) && forall k :: Lookup(quantities[p], k) == Lookup(qs, Slot(p, k)))
  }

  /** The position rows among those read. */
  ghost function Among(qs: Quantities, read: set<Slot>): Quantities {
    map slot | slot in qs && slot in read :: qs[slot]
  }

  method SetupByPerformance(qs: Quantities, eligible: seq<PerfId>)
    returns (ids: map<PerfId, PositionIds>, quantities: map<PerfId, KeyQuantities>)
    ensures OfPerformances(ids, quantities, eligible, qs)
  {
    ids := map p | p in eligible :: NO_POSITIONS;
    quantities := map p | p in eligible :: map[];
    var wanted := set slot | slot in qs && slot.perf in eligible;
    var rest := wanted;
    NoRowRead(ids, quantities, eligible, qs, wanted);
    while rest != {}
      invariant rest <= wanted && OfPerformances(ids, quantities, eligible, Among(qs, wanted - rest))
      decreases rest
    {
      var row :| row in rest;
      ids, quantities := ReadRow(ids, quantities, eligible, Among(qs, wanted - rest), row, qs[row]);
      AmongStep(qs, wanted, rest, row);
      rest := rest - {row};
    }
    AllRead(ids, quantities, eligible, qs, wanted);
  }

  method ReadRow(ids: map<PerfId, PositionIds>, quantities: map<PerfId, KeyQuantities>, ghost eligible: seq<PerfId>,
                 ghost read: Quantities, row: Slot, quantity: nat)
    returns (ids': map<PerfId, PositionIds>, quantities': map<PerfId, KeyQuantities>)
    requires OfPerformances(ids, quantities, eligible, read) && row.perf in eligible
    ensures OfPerformances(ids', quantities', eligible, read[row := quantity])
  {
    RowRead(ids, quantities, eligible, read, row, quantity);
    ids' := ids[row.perf := WithPosition(ids[row.perf], row.key)];
    quantities' := quantities[row.perf := WithQuantity(quantities[row.perf], row.key, quantity)];
  }

  lemma {:induction false} NoRowRead(ids: map<PerfId, PositionIds>, quantities: map<PerfId, KeyQuantities>,
                                     eligible: seq<PerfId>, qs: Quantities, wanted: set<Slot>)
    requires ids == map p | p in eligible :: NO_POSITIONS
    requires quantities == map p | p in eligible :: map[]
    ensures OfPerformances(ids, quantities, eligible, Among(qs, wanted - wanted))
  {
    NoPositions();
  }

  lemma {:induction false} AmongStep(qs: Quantities, wanted: set<Slot>, rest: set<Slot>, row: Slot)
    requires row in qs && row in wanted && row in rest
    ensures Among(qs, wanted - (rest - {row})) == Among(qs, wanted - rest)[row := qs[row]]
  {
  }

  lemma {:induction false} RowRead(ids: map<PerfId, PositionIds>, quantities: map<PerfId, KeyQuantities>,
                                   eligible: seq<PerfId>, read: Quantities, row: Slot, quantity: nat)
    requires OfPerformances(ids, quantities, eligible, read) && row.perf in eligible
    ensures OfPerformances(ids[row.perf := WithPosition(ids[row.perf], row.key)],
                           quantities[row.perf := WithQuantity(quantities[row.perf], row.key, quantity)], eligible,
                           read[row := quantity])
  {
    var read' := read[row := quantity];
    var ids' := ids[row.perf := WithPosition(ids[row.perf], row.key)];
    var quantities' := quantities[row.perf := WithQuantity(quantities[row.perf], row.key, quantity)];
    forall p, k | p in eligible
      ensures HoldsKey(ids'[p], k) <==> Slot(p, k) in read'
      ensures Lookup(quantities'[p], k) == Lookup(read', Slot(p, k))
    {
      assert OfPerformance(ids[p], read, p);
      assert HoldsKey(ids[p], k) <==> Slot(p, k) in read;
      assert Lookup(quantities[p], k) == Lookup(read, Slot(p, k));
      assert Slot(p, k) == row <==> p == row.perf && k == row.key;
    }
  }

  lemma {:induction false} AllRead(ids: map<PerfId, PositionIds>, quantities: map<PerfId, KeyQuantities>,
                                   eligible: seq<PerfId>, qs: Quantities, wanted: set<Slot>)
    requires wanted == set slot | slot in qs && slot.perf in eligible
    requires OfPerformances(ids, quantities, eligible, Among(qs, wanted - {}))
    ensures OfPerformances(ids, quantities, eligible, qs)
  {
    var read := Among(qs, wanted - {});
    forall p, k | p in eligible
      ensures HoldsKey(ids[p], k) <==> Slot(p, k) in qs
      ensures Lookup(quantities[p], k) == Lookup(qs, Slot(p, k))
    {
      assert Lookup(read, Slot(p, k)) == Lookup(qs, Slot(p, k));
      assert OfPerformance(ids[p], read, p);
      assert HoldsKey(ids[p], k) <==> Slot(p, k) in read;
    }
  }

  method PositionIdsOfUser(qualified: set<(UserId, PositionKey)>, u: UserId) returns (ids: PositionIds)
    ensures OfUser(ids, qualified, u)
  {
    NoPositions();
    ids := NO_POSITIONS;
    var rest := set q | q in qualified && q.0 == u :: q.1;
    ghost var wanted := rest;
    while rest != {}
      invariant rest <= wanted && Total(ids) && forall k :: HoldsKey(ids, k) <==> k in wanted && k !in rest
      decreases rest
    {
      var key :| key in rest;
      ids := WithPosition(ids, key);
      rest := rest - {key};
    }
  }

  /** {b.performance_id: b for b in bookings of this user on these performances} */
  method BookingsByPerformance(rows: seq<Booking>, u: UserId, eligible: seq<PerfId>)
    returns (byPerformance: map<PerfId, Booking>)
    ensures forall p :: Lookup(byPerformance, p) == if p in eligible then BookingOf(rows, p, u) else None
  {
    byPerformance := map[];
    for i := 0 to |rows|
      invariant forall p :: Lookup(byPerformance, p) == if p in eligible then BookingOf(rows[..i], p, u) else None
    {
      assert rows[..i + 1][..i] == rows[..i];
      if rows[i].user == u && rows[i].slot.perf in eligible {
        byPerformance := byPerformance[rows[i].slot.perf := rows[i]];
      }
    }
    assert rows[..|rows|] == rows;
  }

  method Eligible(st: State, performances: seq<PerfId>, now: int, keepPast: bool) returns (eligible: seq<PerfId>)
    requires forall i :: 0 <= i < |performances| ==> performances[i] in st.schedule
    ensures forall p :: p in eligible <==> p in performances && (keepPast || st.schedule[p] >= now)
  {
    eligible := [];
    for i := 0 to |performances|
      invariant forall p :: p in eligible <==> p in performances[..i] && (keepPast || st.schedule[p] >= now)
    {
      assert performances[..i + 1] == performances[..i] + [performances[i]];
      if keepPast || st.schedule[performances[i]] >= now {
        eligible := eligible + [performances[i]];
      }
    }
    assert performances[..|performances|] == performances;
  }

  /** What the dictionaries of the second evaluator hold about one performance. */
  ghost predicate ReadForPerformance(st: State, p: PerfId, u: UserId, userPositionIds: PositionIds,
                                     setupIds: map<PerfId, PositionIds>, quantities: map<PerfId, KeyQuantities>,
                                     bookings: map<PerfId, Booking>, requests: map<PerfId, bool>)
  {
    && OfUser(userPositionIds, st.qualified, u)
    && p in setupIds && OfPerformance(setupIds[p], st.quantities, p)
    && p in quantities && (forall k :: Lookup(quantities[p], k) == Lookup(st.quantities, Slot(p, k)))
    && Lookup(bookings, p) == BookingOf(st.tables.bookings, p, u)
    && Lookup(requests, p) == Lookup(st.requests, (p, u))
  }

  /** The decision on one row of the calendar, with its own chain of branches. */
  method ResolveCalendarStatus(ghost st: State, ghost u: UserId, p: PerfId, userPositionIds: PositionIds,
                               setupIds: map<PerfId, PositionIds>, quantities: map<PerfId, KeyQuantities>,
                               bookings: map<PerfId, Booking>, requests: map<PerfId, bool>)
    returns (status: Status)
    requires ReadForPerformance(st, p, u, userPositionIds, setupIds, quantities, bookings, requests)
    ensures status == StatusOf(st, p, u)
  {
    BookableMeansQualified(st, p, u, userPositionIds, setupIds[p]);
    if !IsBookable(userPositionIds, setupIds[p]) {
      return NotBookable;
    }
    if p in bookings {
      var booking := bookings[p];
      var bookingKey := booking.slot.key;
      assert booking.slot == Slot(p, bookingKey);
      var quantity := if bookingKey in quantities[p] then quantities[p][bookingKey] else 0;
      assert Lookup(quantities[p], bookingKey) == Lookup(st.quantities, booking.slot);
      if booking.order < quantity {
        return Booked(bookingKey);
      }
      return Standby(bookingKey);
    }
    if p in requests {
      if requests[p] {
        return Rejected;
      }
      return Requested;
    }
    status := Bookable;
  }

  method StatusOnPerformances(st: State, performances: seq<PerfId>, u: UserId, now: int, keepPast: bool)
    returns (result: map<PerfId, Status>)
    requires forall i :: 0 <= i < |performances| ==> performances[i] in st.schedule
    ensures forall p :: p in result <==> p in performances
    ensures forall p :: p in performances ==> p in st.schedule && result[p] == StatusShown(st, p, u, now, keepPast)
  {
    if performances == [] {
      return map[];
    }
    result := map p | p in performances :: NotBookable;
    var eligible := Eligible(st, performances, now, keepPast);
    if eligible == [] {
      assert forall p :: p in performances ==> p !in eligible;
      return;
    }
    result := OverwriteEligible(st, result, eligible, u);
  }

  method RequestsByPerformance(requests: map<RequestKey, bool>, u: UserId, eligible: seq<PerfId>)
    returns (byPerformance: map<PerfId, bool>)
    ensures forall p :: Lookup(byPerformance, p) == if p in eligible then Lookup(requests, (p, u)) else None
  {
    byPerformance := map k | k in requests && k.1 == u && k.0 in eligible :: k.0 := requests[k];
    forall p ensures Lookup(byPerformance, p) == if p in eligible then Lookup(requests, (p, u)) else None {
      assert (p, u) in requests && p in eligible ==> (p, u).0 in byPerformance;
    }
  }

  /** Replaces the status of the eligible performances. */
  method OverwriteEligible(st: State, initial: map<PerfId, Status>, eligible: seq<PerfId>, u: UserId)
    returns (result: map<PerfId, Status>)
    requires forall p :: p in eligible ==> p in initial
    ensures result.Keys == initial.Keys
    ensures forall p :: p in initial ==> result[p] == if p in eligible then StatusOf(st, p, u) else initial[p]
  {
    var setupIds, quantities := SetupByPerformance(st.quantities, eligible);
    var userPositionIds := PositionIdsOfUser(st.qualified, u);
    var bookings := BookingsByPerformance(st.tables.bookings, u, eligible);
    var requests := RequestsByPerformance(st.requests, u, eligible);
    result := ResolveEach(st, initial, eligible, u, userPositionIds, setupIds, quantities, bookings, requests);
  }

  method ResolveEach(ghost st: State, initial: map<PerfId, Status>, eligible: seq<PerfId>, ghost u: UserId,
                     userPositionIds: PositionIds, setupIds: map<PerfId, PositionIds>,
                     quantities: map<PerfId, KeyQuantities>, bookings: map<PerfId, Booking>,
                     requests: map<PerfId, bool>)
    returns (result: map<PerfId, Status>)
    requires forall p :: p in eligible ==> p in initial
    requires forall p :: p in eligible ==>
               ReadForPerformance(st, p, u, userPositionIds, setupIds, quantities, bookings, requests)
    ensures result.Keys == initial.Keys
    ensures forall p :: p in initial ==> result[p] == if p in eligible then StatusOf(st, p, u) else initial[p]
  {
    result := initial;
    for i := 0 to |eligible|
      invariant result.Keys == initial.Keys
      invariant forall p :: p in initial ==> result[p] == if p in eligible[..i] then StatusOf(st, p, u) else initial[p]
    {
      var p := eligible[i];
      assert eligible[..i + 1] == eligible[..i] + [p];
      var status := ResolveCalendarStatus(st, u, p, userPositionIds, setupIds, quantities, bookings, requests);
      result := result[p := status];
    }
    assert eligible[..|eligible|] == eligible;
  }
}
