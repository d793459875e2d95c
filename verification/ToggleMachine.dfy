/** The self-service toggle as a state machine over booking statuses. */
module ToggleMachine {
  import opened Positions
  import opened Tables
  import opened Store
  import opened Invariant
  import opened Preservation

  predicate Open(st: State, p: PerfId, now: int) {
    p in st.schedule && st.schedule[p] >= now
  }

  lemma {:induction false} CancelledStatus(st: State, b: Booking, now: int)
    requires Sound(st) && b in st.tables.bookings && Qualified(st, b.slot.perf, b.user)
    ensures StatusOf(Cancelled(st, b.slot.perf, b.user, now), b.slot.perf, b.user) == Bookable
  {
    CancelNotForward(st, b, now, b.slot.perf, b.user);
  }

  /**
    The transitions: from BOOKABLE to REQUESTED; from REQUESTED, REJECTED, STANDBY and BOOKED to BOOKABLE;
    NOT_BOOKABLE stays, with nothing written. The "already exists" error is never reached.
  */
  lemma {:induction false} ToggleTransitions(st: State, p: PerfId, u: UserId, now: int)
    requires Sound(st) && Open(st, p, now)
    ensures var (st', outcome) := Toggle(st, p, u, now);
            && outcome == Done
            && (match StatusOf(st, p, u)
                case NotBookable => st' == st.(now := now)
                case Bookable => StatusOf(st', p, u) == Requested && st'.tables == st.tables
                case _ => StatusOf(st', p, u) == Bookable)
  {
    match BookingOf(st.tables.bookings, p, u)
    case Some(b) =>
      if Qualified(st, p, u) {
        CancelledStatus(st, b, now);
      }
    case None =>
  }

  /** Requesting and withdrawing leaves no trace. */
  lemma {:induction false} TwoTogglesRestore(st: State, p: PerfId, u: UserId, now: int, later: int)
    requires Open(st, p, later) && now <= later
    requires StatusOf(st, p, u) == Bookable
    ensures Toggle(Toggle(st, p, u, now).0, p, u, later).0 == st.(now := later)
  {
    var st' := Toggle(st, p, u, now).0;
    assert StatusOf(st', p, u) == Requested;
    assert st'.requests - {(p, u)} == st.requests;
  }

  /**
    What a cancellation means for everyone else: the status stays the same, except that the first standby of the
    position becomes booked when a regular user cancels.
  */
  lemma {:induction false} CancelledOthers(st: State, b: Booking, now: int, q: PerfId, v: UserId)
    requires Sound(st) && GapFree(st.tables.bookings) && b in st.tables.bookings && (q != b.slot.perf || v != b.user)
    ensures var (quantity, x) := (QuantityAt(st.quantities, b.slot), BookingOf(st.tables.bookings, q, v));
            StatusOf(Cancelled(st, b.slot.perf, b.user, now), q, v)
            == if x.Some? && x.value.slot == b.slot && b.order < quantity == x.value.order && Qualified(st, q, v)
               then Booked(b.slot.key) else StatusOf(st, q, v)
  {
    CancelBookingOf(st, b, now, q, v);
    ShownAfterCancel(st, Cancelled(st, b.slot.perf, b.user, now), b, q, v);
  }

  lemma {:induction false} ShownAfterCancel(st: State, st': State, b: Booking, q: PerfId, v: UserId)
    requires q != b.slot.perf || v != b.user
    requires st'.quantities == st.quantities && st'.qualified == st.qualified
    requires st'.requests == st.requests - {(b.slot.perf, b.user)}
    requires var (x, x') := (BookingOf(st.tables.bookings, q, v), BookingOf(st'.tables.bookings, q, v));
             x' == if x.None? then None else Some(MovedUp(x.value, b))
    ensures var (quantity, x) := (QuantityAt(st.quantities, b.slot), BookingOf(st.tables.bookings, q, v));
            StatusOf(st', q, v)
            == if x.Some? && x.value.slot == b.slot && b.order < quantity == x.value.order && Qualified(st, q, v)
               then Booked(b.slot.key) else StatusOf(st, q, v)
  {
    assert Qualified(st', q, v) <==> Qualified(st, q, v);
  }
}
