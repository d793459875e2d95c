/**
  A transaction over the cast of one performance is a list of position changes, run in order. Saving a cast and
  reconciling a changed setup are both such lists. Here: what any such list does to bookings and log.
*/
module ApplyChanges {
  import opened Positions
  import opened Tables
  import opened CastDiff
  import opened SaveItem

  /** One call of the diff engine: the new cast (None purges), the current quantity and the one before, if any. */
  datatype Change = Change(slot: Slot, quantity: nat, newCast: Option<seq<CastEntry>>, oldQuantity: Option<nat>)
  {
    function Cast(): seq<CastEntry> {
      if newCast.Some? then newCast.value else []
    }

    predicate Fits(p: PerfId) {
      slot.perf == p && NoDup(Ids(Cast()))
    }
  }

  function Run1(t: CastTables, c: Change, now: int): CastTables {
    SaveCastItem(t, c.slot, c.quantity, c.newCast, c.oldQuantity, now)
  }

  function Init(changes: seq<Change>): seq<Change>
    requires changes != []
  {
    changes[..|changes| - 1]
  }

  function Last(changes: seq<Change>): Change
    requires changes != []
  {
    changes[|changes| - 1]
  }

  /** The tables after all changes, in order. */
  function Run(t: CastTables, changes: seq<Change>, now: int): CastTables {
    if changes == [] then t else Run1(Run(t, Init(changes), now), Last(changes), now)
  }

  predicate Touched(changes: seq<Change>, slot: Slot) {
    changes != [] && (Last(changes).slot == slot || Touched(Init(changes), slot))
  }

  /** The changes concern different positions of one performance, and no list names a user twice. */
  predicate WellFormed(changes: seq<Change>, p: PerfId) {
    changes == [] ||
    (Last(changes).Fits(p) && !Touched(Init(changes), Last(changes).slot) && WellFormed(Init(changes), p))
  }

  /** The users listed by the changes from index lo on. */
  function UsersIn(changes: seq<Change>, lo: nat): set<UserId> {
    if |changes| <= lo then {} else UsersIn(Init(changes), lo) + UsersOf(Last(changes).Cast())
  }

  lemma {:induction false} TouchedAt(changes: seq<Change>, i: nat)
    requires i < |changes|
    ensures Touched(changes, changes[i].slot)
  {
    if i < |changes| - 1 {
      TouchedAt(Init(changes), i);
    }
  }

  // ---- the bookings afterwards --------------------------------------------------------------

  /** The bookings after all changes: they evolve without regard to the log. */
  function RunRows(rows: seq<Booking>, changes: seq<Change>): seq<Booking> {
    if changes == [] then rows else Recast(RunRows(rows, Init(changes)), Last(changes).slot, Last(changes).Cast())
  }

  lemma {:induction false} Run1IsRecast(t: CastTables, c: Change, now: int)
    ensures Run1(t, c, now).bookings == Recast(t.bookings, c.slot, c.Cast())
    ensures Run1(t, c, now) == SaveCastItem(t, c.slot, c.quantity, Some(c.Cast()), c.oldQuantity, now)
  {
    if c.newCast.None? {
      PurgeIsEmptyCast(t, c.slot, c.quantity, c.oldQuantity, now);
    }
  }

  lemma {:induction false} RunBookings(t: CastTables, changes: seq<Change>, now: int)
    ensures Run(t, changes, now).bookings == RunRows(t.bookings, changes)
  {
    if changes != [] {
      RunBookings(t, Init(changes), now);
      Run1IsRecast(Run(t, Init(changes), now), Last(changes), now);
    }
  }

  lemma {:induction false} RecastInvariants(rows: seq<Booking>, c: Change, p: PerfId)
    requires c.Fits(p) && UniqueBookings(rows) && Ordered(rows)
    ensures UniqueBookings(Recast(rows, c.slot, c.Cast())) && Ordered(Recast(rows, c.slot, c.Cast()))
  {
    RecastUnique(rows, c.slot, c.Cast());
    RecastOrdered(rows, c.slot, c.Cast());
  }

  lemma {:induction false} RunInvariants(rows: seq<Booking>, changes: seq<Change>, p: PerfId)
    requires WellFormed(changes, p)
    requires UniqueBookings(rows) && Ordered(rows)
    ensures UniqueBookings(RunRows(rows, changes)) && Ordered(RunRows(rows, changes))
  {
    if changes != [] {
      RunInvariants(rows, Init(changes), p);
      RecastInvariants(RunRows(rows, Init(changes)), Last(changes), p);
    }
  }

  /** A position not changed only loses the users listed elsewhere. */
  lemma {:induction false} RunAtUntouched(rows: seq<Booking>, changes: seq<Change>, p: PerfId, s: Slot)
    requires WellFormed(changes, p) && !Touched(changes, s)
    ensures At(RunRows(rows, changes), s) == WithoutUsers(At(rows, s), p, UsersIn(changes, 0))
  {
    if changes == [] {
      WithoutUsersNone(At(rows, s), p, {});
    } else {
      var c := Last(changes);
      RunAtUntouched(rows, Init(changes), p, s);
      RecastAt(RunRows(rows, Init(changes)), c.slot, c.Cast(), s);
      WithoutUsersTwice(At(rows, s), p, UsersIn(Init(changes), 0), UsersOf(c.Cast()));
    }
  }

  /** A changed position holds its new list, minus the users a later change lists as well. */
  lemma {:induction false} RunAtChanged(rows: seq<Booking>, changes: seq<Change>, p: PerfId, i: nat)
    requires i < |changes| && WellFormed(changes, p)
    ensures At(RunRows(rows, changes), changes[i].slot)
            == WithoutUsers(NewRows(changes[i].slot, changes[i].Cast()), p, UsersIn(changes, i + 1))
  {
    var c, s := Last(changes), changes[i].slot;
    var listed := NewRows(s, changes[i].Cast());
    RecastAt(RunRows(rows, Init(changes)), c.slot, c.Cast(), s);
    if i == |changes| - 1 {
      WithoutUsersNone(listed, p, {});
    } else {
      TouchedAt(Init(changes), i);
      RunAtChanged(rows, Init(changes), p, i);
      WithoutUsersTwice(listed, p, UsersIn(Init(changes), i + 1), UsersOf(c.Cast()));
    }
  }

  /** The row of a user the change lists. */
  function RowIn(c: Change, u: UserId): Booking
    requires u in Ids(c.Cast())
  {
    var k := IndexOf(Ids(c.Cast()), u);
    Booking(c.slot, u, k, c.Cast()[k].fee)
  }

  lemma {:induction false} ChangeBookingOf(rows: seq<Booking>, c: Change, p: PerfId, q: PerfId, u: UserId)
    requires c.Fits(p) && UniqueBookings(rows)
    ensures BookingOf(Recast(rows, c.slot, c.Cast()), q, u)
            == if q == p && u in Ids(c.Cast()) then Some(RowIn(c, u))
               else if BookingOf(rows, q, u).Some? && BookingOf(rows, q, u).value.slot == c.slot then None
               else BookingOf(rows, q, u)
  {
    RecastBookingOf(rows, c.slot, c.Cast(), q, u);
  }

  /** The last change that lists a user decides where it is booked, and under which order. */
  lemma {:induction false} RunBookingListed(rows: seq<Booking>, changes: seq<Change>, p: PerfId, i: nat, u: UserId)
    requires i < |changes| && WellFormed(changes, p)
    requires UniqueBookings(rows) && Ordered(rows)
    requires u in Ids(changes[i].Cast()) && u !in UsersIn(changes, i + 1)
    ensures BookingOf(RunRows(rows, changes), p, u) == Some(RowIn(changes[i], u))
  {
    RunInvariants(rows, Init(changes), p);
    ChangeBookingOf(RunRows(rows, Init(changes)), Last(changes), p, p, u);
    if i < |changes| - 1 {
      TouchedAt(Init(changes), i);
      RunBookingListed(rows, Init(changes), p, i, u);
    }
  }

  /** A user no change lists loses its booking if its position was changed, and keeps it otherwise. */
  lemma {:induction false} RunBookingUnlisted(rows: seq<Booking>, changes: seq<Change>, p: PerfId, q: PerfId, u: UserId)
    requires WellFormed(changes, p)
    requires UniqueBookings(rows) && Ordered(rows)
    requires q != p || u !in UsersIn(changes, 0)
    ensures BookingOf(RunRows(rows, changes), q, u)
            == if BookingOf(rows, q, u).Some? && Touched(changes, BookingOf(rows, q, u).value.slot) then None
               else BookingOf(rows, q, u)
  {
    if changes != [] {
      RunInvariants(rows, Init(changes), p);
      ChangeBookingOf(RunRows(rows, Init(changes)), Last(changes), p, q, u);
      RunBookingUnlisted(rows, Init(changes), p, q, u);
    }
  }

  // ---- the log afterwards -------------------------------------------------------------------

  /** The quantities after all changes. */
  function RunQuantities(qs: Quantities, changes: seq<Change>): Quantities {
    if changes == [] then qs else RunQuantities(qs, Init(changes))[Last(changes).slot := Last(changes).quantity]
  }

  /** Every change with a non-empty list is judged against the quantity in force before. */
  predicate Referenced(qs: Quantities, changes: seq<Change>) {
    changes == [] ||
    (var c := Last(changes);
     && (c.Cast() != [] ==> QuantityAt(qs, c.slot) == Reference(c.quantity, c.oldQuantity))
     && Referenced(qs, Init(changes)))
  }

  /**
    The last change that lists u promoted it silently, in the sense of SaveItem.Silent, at the time that change
    ran: after the earlier changes took their users away.
  */
  predicate SilentlyPromoted(rows: seq<Booking>, qs: Quantities, changes: seq<Change>, u: UserId) {
    changes != [] &&
    var c := Last(changes);
    if u in Ids(c.Cast()) then
      Silent(RunRows(rows, Init(changes)), c.slot, c.Cast(), c.quantity, QuantityAt(qs, c.slot), u)
    else SilentlyPromoted(rows, qs, Init(changes), u)
  }

  lemma {:induction false} RunQuantityAhead(qs: Quantities, changes: seq<Change>, slot: Slot)
    requires !Touched(changes, slot)
    ensures QuantityAt(RunQuantities(qs, changes), slot) == QuantityAt(qs, slot)
  {
    if changes != [] {
      RunQuantityAhead(qs, Init(changes), slot);
    }
  }

  lemma {:induction false} LastListing(changes: seq<Change>, u: UserId) returns (i: nat)
    requires u in UsersIn(changes, 0)
    ensures i < |changes| && u in Ids(changes[i].Cast()) && u !in UsersIn(changes, i + 1)
  {
    if u in Ids(Last(changes).Cast()) {
      i := |changes| - 1;
    } else {
      i := LastListing(Init(changes), u);
    }
  }

  /** A user found on a position that has not been changed yet has been listed by no change so far. */
  lemma {:induction false} StillThere(rows: seq<Booking>, changes: seq<Change>, p: PerfId, slot: Slot, u: UserId)
    requires WellFormed(changes, p) && slot.perf == p && !Touched(changes, slot)
    requires UniqueBookings(rows) && Ordered(rows)
    requires u in Ids(CastOf(RunRows(rows, changes), slot))
    ensures u !in UsersIn(changes, 0)
  {
    RunInvariants(rows, changes, p);
    CastIndex(RunRows(rows, changes), slot, u);
    if u in UsersIn(changes, 0) {
      var i := LastListing(changes, u);
      RunBookingListed(rows, changes, p, i, u);
      TouchedAt(changes, i);
    }
  }

  lemma {:induction false} NotListedNotSilent(rows: seq<Booking>, qs: Quantities, changes: seq<Change>, u: UserId)
    requires u !in UsersIn(changes, 0)
    ensures !SilentlyPromoted(rows, qs, changes, u)
  {
    if changes != [] {
      NotListedNotSilent(rows, qs, Init(changes), u);
    }
  }

  lemma {:induction false} Run1AgreeBystander(t: CastTables, qs: Quantities, c: Change, now: int, p: PerfId,
                                              q: PerfId, u: UserId)
    requires c.Fits(p) && UniqueBookings(t.bookings) && Ordered(t.bookings)
    requires Bystander(t.bookings, c.slot, c.Cast(), q, u)
    ensures Agree(Run1(t, c, now), qs[c.slot := c.quantity], q, u) <==> Agree(t, qs, q, u)
  {
    Run1IsRecast(t, c, now);
    AgreeBystander(t, qs, c.slot, c.quantity, c.Cast(), c.oldQuantity, now, q, u);
  }

  /** One change, for a user on the changed position or its new list. */
  lemma {:induction false} Run1AgreeInvolved(t: CastTables, qs: Quantities, c: Change, now: int, p: PerfId, u: UserId)
    requires c.Fits(p) && UniqueBookings(t.bookings) && Ordered(t.bookings)
    requires u in Ids(CastOf(t.bookings, c.slot)) || u in Ids(c.Cast())
    requires u in Ids(CastOf(t.bookings, c.slot)) && u in Ids(c.Cast()) ==>
               Agree(t, qs, p, u) && QuantityAt(qs, c.slot) == Reference(c.quantity, c.oldQuantity)
    ensures Agree(Run1(t, c, now), qs[c.slot := c.quantity], p, u)
            <==> !Silent(t.bookings, c.slot, c.Cast(), c.quantity, QuantityAt(qs, c.slot), u)
  {
    Run1IsRecast(t, c, now);
    if u in Ids(CastOf(t.bookings, c.slot)) && u in Ids(c.Cast()) {
      AgreeStayed(t, qs, c.slot, c.quantity, c.Cast(), c.oldQuantity, now, u);
    } else {
      AgreeSwitched(t, qs, c.slot, c.quantity, c.Cast(), c.oldQuantity, now, u);
    }
  }

  /**
    The exact condition for the log to stay faithful. If log and bookings agreed about a user before, they agree
    after the changes if and only if the last change that lists the user did not promote it silently.
  */
  lemma {:induction false} RunAgree(t: CastTables, qs: Quantities, changes: seq<Change>, now: int, p: PerfId, u: UserId)
    requires WellFormed(changes, p) && Referenced(qs, changes)
    requires UniqueBookings(t.bookings) && Ordered(t.bookings)
    requires Agree(t, qs, p, u)
    ensures Agree(Run(t, changes, now), RunQuantities(qs, changes), p, u)
            <==> !SilentlyPromoted(t.bookings, qs, changes, u)
  {
    if changes != [] {
      var init, c := Init(changes), Last(changes);
      var before, q := Run(t, init, now), RunQuantities(qs, init);
      RunAgree(t, qs, init, now, p, u);
      RunBookings(t, init, now);
      RunInvariants(t.bookings, init, p);
      RunQuantityAhead(qs, init, c.slot);
      if u in Ids(CastOf(before.bookings, c.slot)) {
        StillThere(t.bookings, init, p, c.slot, u);
        NotListedNotSilent(t.bookings, qs, init, u);
      }
      if Bystander(before.bookings, c.slot, c.Cast(), p, u) {
        Run1AgreeBystander(before, q, c, now, p, p, u);
      } else {
        Run1AgreeInvolved(before, q, c, now, p, u);
      }
    }
  }

  /** Other performances are out of reach. */
  lemma {:induction false} RunAgreeElsewhere(t: CastTables, qs: Quantities, changes: seq<Change>, now: int,
                                             p: PerfId, q: PerfId, u: UserId)
    requires WellFormed(changes, p) && q != p
    requires UniqueBookings(t.bookings) && Ordered(t.bookings)
    ensures Agree(Run(t, changes, now), RunQuantities(qs, changes), q, u) <==> Agree(t, qs, q, u)
  {
    if changes != [] {
      RunAgreeElsewhere(t, qs, Init(changes), now, p, q, u);
      RunBookings(t, Init(changes), now);
      RunInvariants(t.bookings, Init(changes), p);
      Run1AgreeBystander(Run(t, Init(changes), now), RunQuantities(qs, Init(changes)), Last(changes), now, p, q, u);
    }
  }
}
