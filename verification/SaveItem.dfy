/** Rewriting the cast of one position: the step every cast mutation is made of. */
module SaveItem {
  import opened Positions
  import opened Tables
  import opened CastDiff
  import opened BookingLogs

  datatype CastTables = CastTables(bookings: seq<Booking>, logs: seq<LogRow>)

  /** The bookings after a position got a new cast: its rows are recreated, its users leave every other position. */
  function Recast(rows: seq<Booking>, slot: Slot, cast: seq<CastEntry>): seq<Booking> {
    WithoutUsers(WithoutSlot(rows, slot), slot.perf, UsersOf(cast)) + NewRows(slot, cast)
  }

  /** No cast at all (None) purges the position and unbooks everyone on it. */
  function SaveCastItem(t: CastTables, slot: Slot, quantity: nat, newCast: Option<seq<CastEntry>>,
                        oldQuantity: Option<nat>, now: int): CastTables
  {
    var prior := CastOf(t.bookings, slot);
    match newCast
    case None =>
      CastTables(WithoutSlot(t.bookings, slot), Logged(t.logs, Span(prior, 0, |prior|, Unbook), slot, now))
    case Some(cast) =>
      CastTables(Recast(t.bookings, slot, cast), Logged(t.logs, Diff(prior, cast, quantity, oldQuantity), slot, now))
  }

  /** The log and the bookings agree about a user: it was last logged "book" iff it holds a regular slot. */
  predicate Agree(t: CastTables, qs: Quantities, p: PerfId, u: UserId) {
    LoggedIn(t.logs, p, u) <==> Regular(t.bookings, qs, p, u)
  }

  // ---- purging is saving the empty cast -----------------------------------------------------

  lemma {:induction false} DroppedAll(prior: seq<CastEntry>)
    ensures Dropped(prior, []) == Span(prior, 0, |prior|, Unbook)
  {
    if prior != [] {
      var init := prior[..|prior| - 1];
      DroppedAll(init);
      SpanPrefix(prior, init, 0, |prior| - 1, Unbook);
    }
  }

  lemma {:induction false} SpanPrefix(a: seq<CastEntry>, b: seq<CastEntry>, lo: nat, hi: nat, kind: LogType)
    requires hi <= |a| && hi <= |b|
    requires forall i :: 0 <= i < hi ==> a[i] == b[i]
    ensures Span(a, lo, hi, kind) == Span(b, lo, hi, kind)
  {
    if lo < hi {
      SpanPrefix(a, b, lo, hi - 1, kind);
    }
  }

  /** A position missing from the payload is treated exactly like one saved with an empty list. */
  lemma {:induction false} PurgeIsEmptyCast(t: CastTables, slot: Slot, quantity: nat, oldQuantity: Option<nat>,
                                            now: int)
    ensures SaveCastItem(t, slot, quantity, None, None, now)
            == SaveCastItem(t, slot, quantity, Some([]), oldQuantity, now)
  {
    var prior := CastOf(t.bookings, slot);
    DroppedAll(prior);
    var reference := Reference(quantity, oldQuantity);
    assert Ids([]) == [] && Judgments(Ids(prior), [], quantity, reference) == [];
    WithoutUsersNone(WithoutSlot(t.bookings, slot), slot.perf, UsersOf([]));
  }

  // ---- the bookings afterwards --------------------------------------------------------------

  /** The saved position holds exactly the new list; every other position only loses the users on it. */
  lemma {:induction false} RecastAt(rows: seq<Booking>, slot: Slot, cast: seq<CastEntry>, s: Slot)
    ensures At(Recast(rows, slot, cast), s)
            == if s == slot then NewRows(slot, cast) else WithoutUsers(At(rows, s), slot.perf, UsersOf(cast))
  {
    var kept := WithoutUsers(WithoutSlot(rows, slot), slot.perf, UsersOf(cast));
    var others, listed := At(kept, s), At(NewRows(slot, cast), s);
    AtConcat(kept, NewRows(slot, cast), s);
    AtUniform(NewRows(slot, cast), slot, s);
    AtWithoutUsers(WithoutSlot(rows, slot), slot.perf, UsersOf(cast), s);
    AtWithoutSlot(rows, slot, s);
    if s == slot {
      assert others == [] && others + listed == listed;
    } else {
      assert listed == [] && others + listed == others;
    }
  }

  lemma {:induction false} RecastAscending(rows: seq<Booking>, slot: Slot, cast: seq<CastEntry>, s: Slot)
    requires Ascending(At(rows, s))
    ensures Ascending(At(Recast(rows, slot, cast), s))
  {
    RecastAt(rows, slot, cast, s);
    NewRowsContiguous(slot, cast);
    ContiguousAscending(NewRows(slot, cast));
    WithoutUsersAscending(At(rows, s), slot.perf, UsersOf(cast));
  }

  lemma {:induction false} RecastOrdered(rows: seq<Booking>, slot: Slot, cast: seq<CastEntry>)
    requires Ordered(rows)
    ensures Ordered(Recast(rows, slot, cast))
  {
    forall s ensures Ascending(At(Recast(rows, slot, cast), s)) {
      RecastAscending(rows, slot, cast, s);
    }
  }

  lemma {:induction false} NewRowsUsers(slot: Slot, cast: seq<CastEntry>, x: Booking)
    requires x in NewRows(slot, cast)
    ensures x.user in Ids(cast)
  {
    var i :| 0 <= i < |cast| && NewRows(slot, cast)[i] == x;
    assert Ids(cast)[i] == x.user;
  }

  lemma {:induction false} CastSplit(slot: Slot, cast: seq<CastEntry>)
    requires cast != []
    ensures var n := |cast| - 1;
            && Ids(cast) == Ids(cast[..n]) + [cast[n].user] && Ids(cast)[..n] == Ids(cast[..n])
            && NewRows(slot, cast) == NewRows(slot, cast[..n]) + [NewRows(slot, cast)[n]]
  {
  }

  lemma {:induction false} UniqueConcat(a: seq<Booking>, slot: Slot, cast: seq<CastEntry>)
    requires UniqueBookings(a) && NoDup(Ids(cast))
    requires forall x :: x in a ==> !Hit(x, slot.perf, UsersOf(cast))
    ensures UniqueBookings(a + NewRows(slot, cast))
  {
    if cast == [] {
      assert a + NewRows(slot, cast) == a;
    } else {
      var n := |cast| - 1;
      var init, row := a + NewRows(slot, cast[..n]), NewRows(slot, cast)[n];
      CastSplit(slot, cast);
      UniqueConcat(a, slot, cast[..n]);
      forall x | x in init ensures !Hit(x, slot.perf, {row.user}) {
        if x in a {
          assert !Hit(x, slot.perf, UsersOf(cast));
        } else {
          NewRowsUsers(slot, cast[..n], x);
        }
      }
      assert a + NewRows(slot, cast) == init + [row];
    }
  }

  lemma {:induction false} RecastUnique(rows: seq<Booking>, slot: Slot, cast: seq<CastEntry>)
    requires UniqueBookings(rows) && NoDup(Ids(cast))
    ensures UniqueBookings(Recast(rows, slot, cast))
  {
    WithoutSlotUnique(rows, slot);
    WithoutUsersUnique(WithoutSlot(rows, slot), slot.perf, UsersOf(cast));
    UniqueConcat(WithoutUsers(WithoutSlot(rows, slot), slot.perf, UsersOf(cast)), slot, cast);
  }

  /** One user's booking afterwards: its new place if listed, nothing if it was dropped, otherwise what it was. */
  lemma {:induction false} RecastBookingOf(rows: seq<Booking>, slot: Slot, cast: seq<CastEntry>, p: PerfId, u: UserId)
    requires UniqueBookings(rows) && NoDup(Ids(cast))
    ensures var (b, b') := (BookingOf(rows, p, u), BookingOf(Recast(rows, slot, cast), p, u));
            if p == slot.perf && u in Ids(cast) then
              var i := IndexOf(Ids(cast), u);
              b' == Some(Booking(slot, u, i, cast[i].fee))
            else if b.Some? && b.value.slot == slot then b'.None?
            else b' == b
  {
    var after := Recast(rows, slot, cast);
    RecastUnique(rows, slot, cast);
    if p == slot.perf && u in Ids(cast) {
      var i := IndexOf(Ids(cast), u);
      assert NewRows(slot, cast)[i] in after;
      BookingOfUnique(after, NewRows(slot, cast)[i]);
    } else {
      forall x: Booking | Hit(x, p, {u})
        ensures x in after <==> x in rows && x.slot != slot
      {
        RecastOther(rows, slot, cast, x);
      }
      if BookingOf(rows, p, u).Some? {
        var b := BookingOf(rows, p, u).value;
        if b.slot != slot {
          BookingOfUnique(after, b);
        } else {
          forall x | x in after ensures !Hit(x, p, {u}) {
            if Hit(x, p, {u}) {
              BookingOfUnique(rows, x);
            }
          }
        }
      }
    }
  }

  lemma {:induction false} RecastOther(rows: seq<Booking>, slot: Slot, cast: seq<CastEntry>, x: Booking)
    requires !(x.slot.perf == slot.perf && x.user in Ids(cast))
    ensures x in Recast(rows, slot, cast) <==> x in rows && x.slot != slot
  {
    WithoutSlotMember(rows, slot, x);
    WithoutUsersMember(WithoutSlot(rows, slot), slot.perf, UsersOf(cast), x);
    var recreated := NewRows(slot, cast);
    forall i | 0 <= i < |recreated| ensures recreated[i] != x {
      assert Ids(cast)[i] == recreated[i].user;
    }
  }

  // ---- the log afterwards -------------------------------------------------------------------

  /**
    A promotion nobody logs: the user holds a standby order, but its list index, compacted because users above it
    have already been moved away, counts as regular; so the diff sees no change when the new index is regular.
  */
  predicate Silent(rows: seq<Booking>, slot: Slot, cast: seq<CastEntry>, quantity: nat, reference: nat, u: UserId) {
    && RegularIn(Ids(CastOf(rows, slot)), reference, u)
    && BookingOf(rows, slot.perf, u).Some?
    && BookingOf(rows, slot.perf, u).value.order >= reference
    && RegularIn(Ids(cast), quantity, u)
  }

  predicate Bystander(rows: seq<Booking>, slot: Slot, cast: seq<CastEntry>, p: PerfId, u: UserId) {
    p != slot.perf || (u !in Ids(CastOf(rows, slot)) && u !in Ids(cast))
  }

  lemma {:induction false} BystanderBooking(rows: seq<Booking>, slot: Slot, cast: seq<CastEntry>, p: PerfId, u: UserId)
    requires UniqueBookings(rows) && Ascending(At(rows, slot)) && NoDup(Ids(cast))
    requires Bystander(rows, slot, cast, p, u)
    ensures BookingOf(Recast(rows, slot, cast), p, u) == BookingOf(rows, p, u)
    ensures BookingOf(rows, p, u).Some? ==> BookingOf(rows, p, u).value.slot != slot
  {
    CastIndex(rows, slot, u);
    RecastBookingOf(rows, slot, cast, p, u);
  }

  /** The user stays unmentioned: nothing changes about it. */
  lemma {:induction false} AgreeBystander(t: CastTables, qs: Quantities, slot: Slot, quantity: nat,
                                          cast: seq<CastEntry>,
                       oldQuantity: Option<nat>, now: int, p: PerfId, u: UserId)
    requires UniqueBookings(t.bookings) && Ascending(At(t.bookings, slot)) && NoDup(Ids(cast))
    requires Bystander(t.bookings, slot, cast, p, u)
    ensures Agree(SaveCastItem(t, slot, quantity, Some(cast), oldQuantity, now), qs[slot := quantity], p, u)
            <==> Agree(t, qs, p, u)
  {
    var prior := CastOf(t.bookings, slot);
    BystanderBooking(t.bookings, slot, cast, p, u);
    LoggedInAfter(t.logs, Diff(prior, cast, quantity, oldQuantity), slot, now, p, u);
    if p == slot.perf {
      CastIndex(t.bookings, slot, u);
      DiffVerdict(prior, cast, quantity, oldQuantity, u);
    }
  }

  /** The user enters or leaves the position: the diff always logs, and logs what is then true. */
  lemma {:induction false} AgreeSwitched(t: CastTables, qs: Quantities, slot: Slot, quantity: nat, cast: seq<CastEntry>,
                      oldQuantity: Option<nat>, now: int, u: UserId)
    requires UniqueBookings(t.bookings) && Ascending(At(t.bookings, slot)) && NoDup(Ids(cast))
    requires (u in Ids(CastOf(t.bookings, slot))) != (u in Ids(cast))
    ensures Agree(SaveCastItem(t, slot, quantity, Some(cast), oldQuantity, now), qs[slot := quantity], slot.perf, u)
  {
    var prior := CastOf(t.bookings, slot);
    CastIndex(t.bookings, slot, u);
    RecastBookingOf(t.bookings, slot, cast, slot.perf, u);
    DiffVerdict(prior, cast, quantity, oldQuantity, u);
    LoggedInAfter(t.logs, Diff(prior, cast, quantity, oldQuantity), slot, now, slot.perf, u);
  }

  /** The user stays on the position: agreement survives exactly when no promotion goes unlogged. */
  lemma {:induction false} AgreeStayed(t: CastTables, qs: Quantities, slot: Slot, quantity: nat, cast: seq<CastEntry>,
                    oldQuantity: Option<nat>, now: int, u: UserId)
    requires UniqueBookings(t.bookings) && Ascending(At(t.bookings, slot)) && NoDup(Ids(cast))
    requires QuantityAt(qs, slot) == Reference(quantity, oldQuantity)
    requires u in Ids(CastOf(t.bookings, slot)) && u in Ids(cast)
    requires Agree(t, qs, slot.perf, u)
    ensures Agree(SaveCastItem(t, slot, quantity, Some(cast), oldQuantity, now), qs[slot := quantity], slot.perf, u)
            <==> !Silent(t.bookings, slot, cast, quantity, QuantityAt(qs, slot), u)
  {
    var prior := CastOf(t.bookings, slot);
    CastIndex(t.bookings, slot, u);
    RecastBookingOf(t.bookings, slot, cast, slot.perf, u);
    DiffVerdict(prior, cast, quantity, oldQuantity, u);
    LoggedInAfter(t.logs, Diff(prior, cast, quantity, oldQuantity), slot, now, slot.perf, u);
  }
}
