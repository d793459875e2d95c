/**
  The two status evaluators side by side. Neither uses the other, or anything that decides for both but is_bookable;
  both compute Store.StatusShown point by point, so they agree.
*/
module Status {
  import opened Positions
  import opened Tables
  import opened Store
  import opened Invariant
  import opened UsersStatus
  import opened CalendarStatus

  /** Both evaluators show the same status, for every database, clock and flag, wherever both are asked. */
  method EvaluatorsAgree(st: State, p: PerfId, u: UserId, users: seq<UserId>, performances: seq<PerfId>, now: int,
                         keepPast: bool)
    returns (fromUsers: Status, fromPerformances: Status)
    requires References(st) && u in users && p in performances
    requires forall i :: 0 <= i < |performances| ==> performances[i] in st.schedule
    ensures fromUsers == fromPerformances == StatusShown(st, p, u, now, keepPast)
  {
    assert p in st.schedule;
    var a := StatusOfUsers(st, p, users, now, keepPast);
    var b := StatusOnPerformances(st, performances, u, now, keepPast);
    fromUsers, fromPerformances := a[u], b[p];
  }

  /**
    What is shown, on the tables. The status is hidden if the performance is past, unless past ones are asked for, or if
    the user holds none of its positions...
  */
  lemma {:induction false} HiddenMeans(st: State, p: PerfId, u: UserId, now: int, keepPast: bool)
    requires p in st.schedule
    ensures StatusShown(st, p, u, now, keepPast) == NotBookable
            <==> || (st.schedule[p] < now && !keepPast)
                 || forall key :: Slot(p, key) in st.quantities ==> (u, key) !in st.qualified
  {
    if slot :| slot in st.quantities && slot.perf == p && (u, slot.key) in st.qualified {
      assert slot == Slot(p, slot.key);
    }
  }

  /** ... otherwise it follows the user's booking row, its order against the quantity stored for its position... */
  lemma {:induction false} BookedMeans(st: State, p: PerfId, u: UserId, now: int, keepPast: bool, key: PositionKey)
    requires References(st) && p in st.schedule
    ensures StatusShown(st, p, u, now, keepPast) == Booked(key)
            <==> && (st.schedule[p] >= now || keepPast)
                 && (exists k :: Slot(p, k) in st.quantities && (u, k) in st.qualified)
                 && exists b :: && b in st.tables.bookings && b.slot == Slot(p, key) && b.user == u
                                && b.slot in st.quantities && b.order < st.quantities[b.slot]
    ensures StatusShown(st, p, u, now, keepPast) == Standby(key)
            <==> && (st.schedule[p] >= now || keepPast)
                 && (exists k :: Slot(p, k) in st.quantities && (u, k) in st.qualified)
                 && exists b :: && b in st.tables.bookings && b.slot == Slot(p, key) && b.user == u
                                && (b.slot in st.quantities ==> b.order >= st.quantities[b.slot])
  {
    HiddenMeans(st, p, u, now, keepPast);
    forall b | b in st.tables.bookings && b.slot.perf == p && b.user == u
      ensures BookingOf(st.tables.bookings, p, u) == Some(b)
    {
      BookingOfUnique(st.tables.bookings, b);
    }
  }

  /** ... and where there is none, the request: none made, one still open, or one turned down. */
  lemma {:induction false} RequestMeans(st: State, p: PerfId, u: UserId, now: int, keepPast: bool)
    requires p in st.schedule
    ensures var status := StatusShown(st, p, u, now, keepPast);
            var unbooked := && (st.schedule[p] >= now || keepPast)
                            && (exists k :: Slot(p, k) in st.quantities && (u, k) in st.qualified)
                            && forall b :: b in st.tables.bookings ==> b.slot.perf != p || b.user != u;
            && (status == Bookable <==> unbooked && (p, u) !in st.requests)
            && (status == Requested <==> unbooked && (p, u) in st.requests && !st.requests[(p, u)])
            && (status == Rejected <==> unbooked && (p, u) in st.requests && st.requests[(p, u)])
  {
    HiddenMeans(st, p, u, now, keepPast);
  }
}
