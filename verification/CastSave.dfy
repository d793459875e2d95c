/**
  Saving a whole cast. The code validates neither that the payload lists a user only once nor that nobody moves to a
  position processed earlier; here is what holds without these assumptions, and exactly what they are needed for.
*/
module CastSave {
  import opened Positions
  import opened Tables
  import opened CastDiff
  import opened SaveItem
  import opened ApplyChanges

  datatype SetupItem = SetupItem(key: PositionKey, quantity: nat)

  /** The cast lists of the request, by position; a position may be missing. */
  type Payload = map<PositionKey, seq<CastEntry>>

  function Keys(items: seq<SetupItem>): (keys: seq<PositionKey>)
    ensures |keys| == |items|
    ensures forall i :: 0 <= i < |items| ==> keys[i] == items[i].key
  {
    if items == [] then [] else Keys(items[..|items| - 1]) + [items[|items| - 1].key]
  }

  function SaveChange(p: PerfId, item: SetupItem, payload: Payload): Change {
    Change(Slot(p, item.key), item.quantity, if item.key in payload then Some(payload[item.key]) else None, None)
  }

  /** One change per position of the setup, in setup order. */
  function SaveChanges(p: PerfId, items: seq<SetupItem>, payload: Payload): (changes: seq<Change>)
    ensures |changes| == |items|
    ensures forall i :: 0 <= i < |items| ==> changes[i] == SaveChange(p, items[i], payload)
  {
    if items == [] then []
    else SaveChanges(p, items[..|items| - 1], payload) + [SaveChange(p, items[|items| - 1], payload)]
  }

  /** Some list of the payload names a user twice (UNIQUE) or names no existing user (foreign key). */
  predicate Acceptable(c: Change, users: set<UserId>) {
    NoDup(Ids(c.Cast())) && forall u :: u in Ids(c.Cast()) ==> u in users
  }

  predicate AllAcceptable(changes: seq<Change>, users: set<UserId>) {
    forall i :: 0 <= i < |changes| ==> Acceptable(changes[i], users)
  }

  lemma {:induction false} SaveChangesTouched(p: PerfId, items: seq<SetupItem>, payload: Payload, slot: Slot)
    ensures Touched(SaveChanges(p, items, payload), slot) <==> slot.perf == p && slot.key in Keys(items)
  {
    if items != [] {
      var init := items[..|items| - 1];
      assert Init(SaveChanges(p, items, payload)) == SaveChanges(p, init, payload);
      SaveChangesTouched(p, init, payload, slot);
    }
  }

  lemma {:induction false} SaveChangesWellFormed(p: PerfId, items: seq<SetupItem>, payload: Payload, users: set<UserId>)
    requires NoDup(Keys(items)) && AllAcceptable(SaveChanges(p, items, payload), users)
    ensures WellFormed(SaveChanges(p, items, payload), p)
  {
    if items != [] {
      var changes, init := SaveChanges(p, items, payload), items[..|items| - 1];
      assert Init(changes) == SaveChanges(p, init, payload);
      assert Keys(items)[..|items| - 1] == Keys(init);
      assert Acceptable(Last(changes), users);
      SaveChangesWellFormed(p, init, payload, users);
      SaveChangesTouched(p, init, payload, Last(changes).slot);
    }
  }

  // ---- gaps ---------------------------------------------------------------------------------

  /** The users taken out of a list (listed again later) are its last ones. */
  predicate TailTaken(cast: seq<CastEntry>, taken: set<UserId>) {
    forall j, k :: 0 <= j < k < |cast| && cast[j].user in taken ==> cast[k].user in taken
  }

  predicate NoneTaken(cast: seq<CastEntry>, taken: set<UserId>) {
    forall j :: 0 <= j < |cast| ==> cast[j].user !in taken
  }

  lemma {:induction false} KeptLength(slot: Slot, cast: seq<CastEntry>, taken: set<UserId>)
    ensures var kept := WithoutUsers(NewRows(slot, cast), slot.perf, taken);
            |kept| <= |cast| && (|kept| == |cast| <==> NoneTaken(cast, taken))
  {
    if cast != [] {
      var n := |cast| - 1;
      CastSplit(slot, cast);
      KeptLength(slot, cast[..n], taken);
      WithoutUsersConcat(NewRows(slot, cast[..n]), [NewRows(slot, cast)[n]], slot.perf, taken);
      assert forall j :: 0 <= j < n ==> cast[..n][j] == cast[j];
    }
  }

  /** A stored list keeps gap-free orders exactly when the users taken out of it are its last ones. */
  lemma {:induction false} KeptContiguous(slot: Slot, cast: seq<CastEntry>, taken: set<UserId>)
    ensures Contiguous(WithoutUsers(NewRows(slot, cast), slot.perf, taken)) <==> TailTaken(cast, taken)
  {
    if cast != [] {
      var n := |cast| - 1;
      var init, row := NewRows(slot, cast[..n]), NewRows(slot, cast)[n];
      var kept := WithoutUsers(init, slot.perf, taken);
      CastSplit(slot, cast);
      KeptContiguous(slot, cast[..n], taken);
      WithoutUsersConcat(init, [row], slot.perf, taken);
      if row.user in taken {
        assert kept + [] == kept;
      } else {
        KeptLength(slot, cast[..n], taken);
      }
    }
  }

  /** The payload leaves no position with a gap: what a position loses to later lists is the end of its own list. */
  ghost predicate LeavesNoGap(changes: seq<Change>) {
    forall i :: 0 <= i < |changes| ==> TailTaken(changes[i].Cast(), UsersIn(changes, i + 1))
  }

  /** Every booking of the performance stands on a position that is changed. */
  ghost predicate Covers(rows: seq<Booking>, changes: seq<Change>, p: PerfId) {
    forall slot: Slot :: slot.perf == p && !Touched(changes, slot) ==> At(rows, slot) == []
  }

  lemma {:induction false} GapFreeOrdered(rows: seq<Booking>)
    requires GapFree(rows)
    ensures Ordered(rows)
  {
    forall slot ensures Ascending(At(rows, slot)) {
      ContiguousAscending(At(rows, slot));
    }
  }

  lemma {:induction false} TouchedIndex(changes: seq<Change>, slot: Slot) returns (i: nat)
    requires Touched(changes, slot)
    ensures i < |changes| && changes[i].slot == slot
  {
    if Last(changes).slot == slot {
      i := |changes| - 1;
    } else {
      i := TouchedIndex(Init(changes), slot);
    }
  }

  lemma {:induction false} SaveSlotContiguous(rows: seq<Booking>, changes: seq<Change>, p: PerfId, slot: Slot)
    requires WellFormed(changes, p) && GapFree(rows) && Covers(rows, changes, p) && LeavesNoGap(changes)
    ensures Contiguous(At(RunRows(rows, changes), slot))
  {
    if Touched(changes, slot) {
      var i := TouchedIndex(changes, slot);
      FitsAt(changes, p, i);
      RunAtChanged(rows, changes, p, i);
      KeptContiguous(slot, changes[i].Cast(), UsersIn(changes, i + 1));
    } else {
      RunAtUntouched(rows, changes, p, slot);
      WithoutUsersNone(At(rows, slot), p, UsersIn(changes, 0));
    }
  }

  lemma {:induction false} FitsAt(changes: seq<Change>, p: PerfId, i: nat)
    requires WellFormed(changes, p) && i < |changes|
    ensures changes[i].Fits(p)
  {
    if i < |changes| - 1 {
      FitsAt(Init(changes), p, i);
    }
  }

  /** The exact condition for gap-free orders after a save. */
  lemma {:induction false} SaveGapFree(rows: seq<Booking>, changes: seq<Change>, p: PerfId)
    requires WellFormed(changes, p) && GapFree(rows) && Covers(rows, changes, p)
    ensures GapFree(RunRows(rows, changes)) <==> LeavesNoGap(changes)
  {
    if LeavesNoGap(changes) {
      forall slot ensures Contiguous(At(RunRows(rows, changes), slot)) {
        SaveSlotContiguous(rows, changes, p, slot);
      }
    }
    if GapFree(RunRows(rows, changes)) {
      forall i | 0 <= i < |changes|
        ensures TailTaken(changes[i].Cast(), UsersIn(changes, i + 1))
      {
        FitsAt(changes, p, i);
        RunAtChanged(rows, changes, p, i);
        KeptContiguous(changes[i].slot, changes[i].Cast(), UsersIn(changes, i + 1));
        assert Contiguous(At(RunRows(rows, changes), changes[i].slot));
      }
    }
  }

  // ---- disjoint payloads --------------------------------------------------------------------

  /** No user is listed at two positions. */
  ghost predicate Disjoint(changes: seq<Change>) {
    forall i :: 0 <= i < |changes| ==> NoneTaken(changes[i].Cast(), UsersIn(changes, i + 1))
  }

  /**
    Saving a disjoint payload stores exactly the payload: each position holds its list, in order, numbered from 0,
    although saving one position may delete rows of positions still to come.
  */
  lemma {:induction false} SaveDisjoint(rows: seq<Booking>, changes: seq<Change>, p: PerfId, i: nat)
    requires WellFormed(changes, p) && Disjoint(changes) && i < |changes|
    ensures At(RunRows(rows, changes), changes[i].slot) == NewRows(changes[i].slot, changes[i].Cast())
  {
    RunAtChanged(rows, changes, p, i);
    var listed := NewRows(changes[i].slot, changes[i].Cast());
    assert NoneTaken(changes[i].Cast(), UsersIn(changes, i + 1));
    WithoutUsersNone(listed, p, UsersIn(changes, i + 1));
  }

  // ---- silent promotions --------------------------------------------------------------------

  /**
    The i-th change promotes u without a log row, in terms of the bookings before the save alone: u stands on that
    position with a standby order, is listed by no earlier change and by no later one, but with everyone an
    earlier change lists taken out, its index counts as regular; and the new list makes it regular.
  */
  predicate SilentPromotion(rows: seq<Booking>, qs: Quantities, changes: seq<Change>, p: PerfId, i: nat, u: UserId) {
    && i < |changes|
    && var c := changes[i];
       var taken := UsersIn(changes[..i], 0);
    && u !in taken && u !in UsersIn(changes, i + 1)
    && BookingOf(rows, p, u).Some?
    && BookingOf(rows, p, u).value.slot == c.slot
    && BookingOf(rows, p, u).value.order >= QuantityAt(qs, c.slot)
    && RegularIn(Ids(Entries(WithoutUsers(At(rows, c.slot), p, taken))), QuantityAt(qs, c.slot), u)
    && RegularIn(Ids(c.Cast()), c.quantity, u)
  }

  lemma {:induction false} SilentAtStage(rows: seq<Booking>, qs: Quantities, changes: seq<Change>, p: PerfId,
                                         c: Change, u: UserId)
    requires WellFormed(changes, p) && c.Fits(p) && !Touched(changes, c.slot)
    requires UniqueBookings(rows) && Ordered(rows)
    ensures Silent(RunRows(rows, changes), c.slot, c.Cast(), c.quantity, QuantityAt(qs, c.slot), u)
            <==> SilentPromotion(rows, qs, changes + [c], p, |changes|, u)
  {
    var all, i := changes + [c], |changes|;
    assert all[..i] == changes && all[i] == c && UsersIn(all, i + 1) == {};
    StageCast(rows, changes, p, c.slot, u);
  }

  /** What a position not processed yet looks like when its turn comes. */
  lemma {:induction false} StageCast(rows: seq<Booking>, changes: seq<Change>, p: PerfId, slot: Slot, u: UserId)
    requires WellFormed(changes, p) && slot.perf == p && !Touched(changes, slot)
    requires UniqueBookings(rows) && Ordered(rows)
    ensures CastOf(RunRows(rows, changes), slot) == Entries(WithoutUsers(At(rows, slot), p, UsersIn(changes, 0)))
    ensures u in Ids(CastOf(RunRows(rows, changes), slot)) ==>
              && u !in UsersIn(changes, 0) && BookingOf(rows, p, u).Some? && BookingOf(rows, p, u).value.slot == slot
              && BookingOf(RunRows(rows, changes), p, u) == BookingOf(rows, p, u)
  {
    var now := RunRows(rows, changes);
    RunInvariants(rows, changes, p);
    RunAtUntouched(rows, changes, p, slot);
    CastOfOrdered(now, slot);
    if u in Ids(CastOf(now, slot)) {
      StillThere(rows, changes, p, slot, u);
      RunBookingUnlisted(rows, changes, p, p, u);
      CastIndex(now, slot, u);
    }
  }

  lemma {:induction false} SilentPromotionInit(rows: seq<Booking>, qs: Quantities, changes: seq<Change>, p: PerfId,
                                               i: nat, u: UserId)
    requires changes != [] && i < |changes| - 1
    ensures SilentPromotion(rows, qs, changes, p, i, u)
            <==> SilentPromotion(rows, qs, Init(changes), p, i, u) && u !in Ids(Last(changes).Cast())
  {
    assert Init(changes)[..i] == changes[..i] && Init(changes)[i] == changes[i];
  }

  /** The exact condition in closed form: it can be checked before the save. */
  lemma {:induction false} SilentlyPromotedIff(rows: seq<Booking>, qs: Quantities, changes: seq<Change>, p: PerfId,
                                               u: UserId)
    requires WellFormed(changes, p) && UniqueBookings(rows) && Ordered(rows)
    ensures SilentlyPromoted(rows, qs, changes, u) <==> exists i :: SilentPromotion(rows, qs, changes, p, i, u)
  {
    if changes != [] {
      var init, c := Init(changes), Last(changes);
      assert changes == init + [c];
      SilentlyPromotedIff(rows, qs, init, p, u);
      SilentAtStage(rows, qs, init, p, c, u);
      forall i: nat | i < |init|
        ensures SilentPromotion(rows, qs, changes, p, i, u)
                <==> SilentPromotion(rows, qs, init, p, i, u) && u !in Ids(c.Cast())
      {
        SilentPromotionInit(rows, qs, changes, p, i, u);
      }
    }
  }

  /** No user is listed by a change while booked on a position that is processed later. */
  ghost predicate NoBackwardMove(rows: seq<Booking>, changes: seq<Change>, p: PerfId) {
    forall i, u :: 0 <= i <= |changes| && u in UsersIn(changes[..i], 0) && BookingOf(rows, p, u).Some? ==>
      forall j :: i <= j < |changes| ==> BookingOf(rows, p, u).value.slot != changes[j].slot
  }

  /** Without a backward move, and with gap-free orders to begin with, every promotion is logged. */
  lemma {:induction false} NoBackwardMoveNotSilent(rows: seq<Booking>, qs: Quantities, changes: seq<Change>,
                                                   p: PerfId, i: nat, u: UserId)
    requires WellFormed(changes, p) && UniqueBookings(rows) && GapFree(rows)
    requires NoBackwardMove(rows, changes, p)
    ensures !SilentPromotion(rows, qs, changes, p, i, u)
  {
    if SilentPromotion(rows, qs, changes, p, i, u) {
      var slot, taken := changes[i].slot, UsersIn(changes[..i], 0);
      var here := At(rows, slot);
      FitsAt(changes, p, i);
      forall k | 0 <= k < |here| ensures !Hit(here[k], p, taken) {
        BookingOfUnique(rows, here[k]);
      }
      WithoutUsersNone(here, p, taken);
      GapFreeOrdered(rows);
      CastOfOrdered(rows, slot);
      CastIndex(rows, slot, u);
      ContiguousOrder(here, IndexOf(Ids(Entries(here)), u));
      assert false;
    }
  }
}
