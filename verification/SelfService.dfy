/** A user cancelling its own booking: who is promoted, who keeps what. */
module SelfService {
  import opened Positions
  import opened Tables
  import opened CastDiff
  import opened BookingLogs
  import opened SaveItem
  import opened ApplyChanges
  import opened CastSave
  import opened SetupChange
  import opened Store

  /** The one change a cancellation consists of. */
  function CancelChange(rows: seq<Booking>, qs: Quantities, b: Booking): Change {
    Change(b.slot, QuantityAt(qs, b.slot), Some(CastWithout(rows, b.slot, b.user)), None)
  }

  // ---- the remaining list -------------------------------------------------------------------

  lemma {:induction false} WithoutOne(rows: seq<Booking>, p: PerfId, u: UserId, k: nat)
    requires k < |rows| && forall i :: 0 <= i < |rows| ==> (Hit(rows[i], p, {u}) <==> i == k)
    ensures WithoutUsers(rows, p, {u}) == RemoveAt(rows, k)
  {
    var n := |rows| - 1;
    if k == n {
      WithoutUsersNone(rows[..n], p, {u});
      assert WithoutUsers(rows, p, {u}) == rows[..n] + [];
    } else {
      WithoutOne(rows[..n], p, u, k);
      assert RemoveAt(rows[..n], k) + [rows[n]] == RemoveAt(rows, k);
    }
  }

  lemma {:induction false} EntriesRemoved(rows: seq<Booking>, k: nat)
    requires k < |rows|
    ensures Entries(RemoveAt(rows, k)) == RemoveAt(Entries(rows), k)
  {
    var a, b := Entries(RemoveAt(rows, k)), RemoveAt(Entries(rows), k);
    assert |a| == |b| && forall i :: 0 <= i < |a| ==> a[i] == b[i];
  }

  /** Everyone but the canceller stays, in the same order. */
  lemma {:induction false} RemainingCast(rows: seq<Booking>, slot: Slot, u: UserId)
    requires UniqueBookings(rows) && Ordered(rows) && u in Ids(CastOf(rows, slot))
    ensures CastWithout(rows, slot, u) == RemoveAt(CastOf(rows, slot), IndexOf(Ids(CastOf(rows, slot)), u))
  {
    var here, ids := At(rows, slot), Ids(CastOf(rows, slot));
    var k := IndexOf(ids, u);
    CastOfOrdered(rows, slot);
    CastIndex(rows, slot, u);
    forall i | 0 <= i < |here| ensures Hit(here[i], slot.perf, {u}) <==> i == k {
      NoDupPair(ids, i, k);
    }
    WithoutOne(here, slot.perf, u, k);
    WithoutUsersAscending(here, slot.perf, {u});
    SortAscending(WithoutUsers(here, slot.perf, {u}));
    EntriesRemoved(here, k);
  }

  lemma {:induction false} RemovedNoDup(s: seq<UserId>, k: nat)
    requires NoDup(s) && k < |s|
    ensures NoDup(RemoveAt(s, k))
  {
    var n := |s| - 1;
    if k == n {
      assert RemoveAt(s, k) == s[..n];
    } else {
      RemovedNoDup(s[..n], k);
      var r := RemoveAt(s, k);
      assert r[..|r| - 1] == RemoveAt(s[..n], k);
      forall i | 0 <= i < |r| - 1 ensures r[i] != s[n] {
        NoDupPair(s, if i < k then i else i + 1, n);
      }
    }
  }

  lemma {:induction false} CancelFits(rows: seq<Booking>, qs: Quantities, b: Booking)
    requires UniqueBookings(rows) && Ordered(rows) && b in rows
    ensures b.user in Ids(CastOf(rows, b.slot))
    ensures WellFormed([CancelChange(rows, qs, b)], b.slot.perf)
  {
    var c, slot := CancelChange(rows, qs, b), b.slot;
    var k := CancelIndex(rows, b);
    CastIndex(rows, slot, b.user);
    RemainingCast(rows, slot, b.user);
    RemovedIds(CastOf(rows, slot), k);
    RemovedNoDup(Ids(CastOf(rows, slot)), k);
    assert [c][..0] == [];
  }

  lemma {:induction false} CancelIndex(rows: seq<Booking>, b: Booking) returns (k: nat)
    requires UniqueBookings(rows) && Ordered(rows) && b in rows
    ensures b.user in Ids(CastOf(rows, b.slot)) && k == IndexOf(Ids(CastOf(rows, b.slot)), b.user)
    ensures k < |CastOf(rows, b.slot)|
  {
    BookingOfUnique(rows, b);
    CastIndex(rows, b.slot, b.user);
    k := IndexOf(Ids(CastOf(rows, b.slot)), b.user);
  }

  // ---- what a cancellation does -------------------------------------------------------------

  /**
    A cancellation is exact. It logs one "unbook" for the canceller, and one "book" for the first standby if and
    only if the canceller stood among the first entries of the list and there is a standby; nothing else.
  */
  lemma {:induction false} CancelLog(t: CastTables, qs: Quantities, b: Booking, now: int)
    requires UniqueBookings(t.bookings) && Ordered(t.bookings) && b in t.bookings
    ensures BookingOf(t.bookings, b.slot.perf, b.user) == Some(b) && b.user in Ids(CastOf(t.bookings, b.slot))
    ensures CancelBooking(t, qs, b.slot.perf, b.user, now).logs
            == Logged(t.logs, CancelTransitions(t.bookings, qs, b), b.slot, now)
  {
    BookingOfUnique(t.bookings, b);
    var k := CancelIndex(t.bookings, b);
    CastIndex(t.bookings, b.slot, b.user);
    BookingFee(t.bookings, b.slot, b.user);
    RemainingCast(t.bookings, b.slot, b.user);
    DiffRemoved(CastOf(t.bookings, b.slot), k, QuantityAt(qs, b.slot));
  }

  function CancelTransitions(rows: seq<Booking>, qs: Quantities, b: Booking): seq<Transition> {
    var (cast, quantity) := (CastOf(rows, b.slot), QuantityAt(qs, b.slot));
    [Transition(b.user, Unbook, b.fee)]
    + (if RegularIn(Ids(cast), quantity, b.user) && quantity < |cast|
       then [Transition(cast[quantity].user, Book, cast[quantity].fee)] else [])
  }

  /** With gap-free orders that is: if and only if the canceller was regular by its order. */
  lemma {:induction false} CancelLogByOrder(t: CastTables, qs: Quantities, b: Booking, now: int)
    requires UniqueBookings(t.bookings) && GapFree(t.bookings) && b in t.bookings
    ensures var (cast, quantity) := (CastOf(t.bookings, b.slot), QuantityAt(qs, b.slot));
            && BookingOf(t.bookings, b.slot.perf, b.user) == Some(b) && b.order < |cast|
            && CancelBooking(t, qs, b.slot.perf, b.user, now).logs
               == Logged(t.logs, [Transition(b.user, Unbook, b.fee)]
                                 + (if b.order < quantity < |cast|
                                    then [Transition(cast[quantity].user, Book, cast[quantity].fee)] else []),
                         b.slot, now)
  {
    GapFreeOrdered(t.bookings);
    CancelLog(t, qs, b, now);
    CastIndex(t.bookings, b.slot, b.user);
    CastOfOrdered(t.bookings, b.slot);
    ContiguousOrder(At(t.bookings, b.slot), IndexOf(Ids(CastOf(t.bookings, b.slot)), b.user));
  }

  /** Everyone else keeps booking and relative order; on the position left, the orders are renumbered without a gap. */
  lemma {:induction false} CancelRows(t: CastTables, qs: Quantities, b: Booking, now: int, slot: Slot)
    requires UniqueBookings(t.bookings) && Ordered(t.bookings) && b in t.bookings
    ensures b.user in Ids(CastOf(t.bookings, b.slot))
    ensures At(CancelBooking(t, qs, b.slot.perf, b.user, now).bookings, slot)
            == if slot == b.slot
               then NewRows(slot, RemoveAt(CastOf(t.bookings, slot), IndexOf(Ids(CastOf(t.bookings, slot)), b.user)))
               else At(t.bookings, slot)
  {
    var rows := t.bookings;
    BookingOfUnique(rows, b);
    var k := CancelIndex(rows, b);
    RemainingCast(rows, b.slot, b.user);
    RecastAt(rows, b.slot, CastWithout(rows, b.slot, b.user), slot);
    if slot != b.slot {
      RowsApart(rows, slot, b.slot, At(rows, slot));
      RemovedUsers(CastOf(rows, b.slot), k);
      FewerTaken(At(rows, slot), b.slot.perf, UsersOf(CastWithout(rows, b.slot, b.user)),
                 UsersOf(CastOf(rows, b.slot)));
    }
  }

  lemma {:induction false} FewerTaken(rows: seq<Booking>, p: PerfId, us: set<UserId>, all: set<UserId>)
    requires us <= all && WithoutUsers(rows, p, all) == rows
    ensures WithoutUsers(rows, p, us) == rows
  {
    forall j | 0 <= j < |rows| ensures !Hit(rows[j], p, us) {
      assert rows[j] == WithoutUsers(rows, p, all)[j];
    }
    WithoutUsersNone(rows, p, us);
  }

  /** With gap-free orders the canceller stands where its order says. */
  lemma {:induction false} CancelAt(t: CastTables, qs: Quantities, b: Booking, now: int, slot: Slot)
    requires UniqueBookings(t.bookings) && GapFree(t.bookings) && b in t.bookings
    ensures b.order < |CastOf(t.bookings, b.slot)|
    ensures At(CancelBooking(t, qs, b.slot.perf, b.user, now).bookings, slot)
            == if slot == b.slot then NewRows(slot, RemoveAt(CastOf(t.bookings, slot), b.order))
               else At(t.bookings, slot)
  {
    GapFreeOrdered(t.bookings);
    BookingOfUnique(t.bookings, b);
    CancelRows(t, qs, b, now, slot);
    CastIndex(t.bookings, b.slot, b.user);
    ContiguousOrder(At(t.bookings, b.slot), IndexOf(Ids(CastOf(t.bookings, b.slot)), b.user));
  }

  /**
    User by user: the canceller's booking is gone, the others of the position stand where the shorter list has them.
  */
  lemma {:induction false} CancelEach(t: CastTables, qs: Quantities, b: Booking, now: int, p: PerfId, u: UserId)
    requires UniqueBookings(t.bookings) && Ordered(t.bookings) && b in t.bookings
    ensures b.user in Ids(CastOf(t.bookings, b.slot))
    ensures var x := BookingOf(t.bookings, p, u);
            x.Some? && x.value.slot == b.slot ==> u in Ids(CastOf(t.bookings, b.slot))
    ensures var (x, ids) := (BookingOf(t.bookings, p, u), Ids(CastOf(t.bookings, b.slot)));
            BookingOf(CancelBooking(t, qs, b.slot.perf, b.user, now).bookings, p, u)
            == if x.None? || x.value == b then None
               else if x.value.slot == b.slot then Some(x.value.(order := IndexWithout(ids, b.user, u)))
               else x
  {
    var rows, slot := t.bookings, b.slot;
    BookingOfUnique(rows, b);
    var k := CancelIndex(rows, b);
    CastIndex(rows, slot, u);
    RemainingIndex(rows, slot, b.user, u);
    RecastBookingOf(rows, slot, CastWithout(rows, slot, b.user), p, u);
    if p == slot.perf && u in Ids(CastOf(rows, slot)) {
      BookingFee(rows, slot, u);
    }
  }

  lemma {:induction false} BookingFee(rows: seq<Booking>, slot: Slot, u: UserId)
    requires UniqueBookings(rows) && Ordered(rows) && u in Ids(CastOf(rows, slot))
    ensures BookingOf(rows, slot.perf, u).Some?
    ensures var (cast, x) := (CastOf(rows, slot), BookingOf(rows, slot.perf, u).value);
            x.slot == slot && x.user == u && x.fee == cast[IndexOf(Ids(cast), u)].fee
  {
    CastIndex(rows, slot, u);
    CastOfOrdered(rows, slot);
  }

  /** The list that remains after one user left, seen from another. */
  lemma {:induction false} RemainingIndex(rows: seq<Booking>, slot: Slot, gone: UserId, u: UserId)
    requires UniqueBookings(rows) && Ordered(rows) && gone in Ids(CastOf(rows, slot))
    ensures var (cast, remaining) := (CastOf(rows, slot), CastWithout(rows, slot, gone));
            && NoDup(Ids(remaining))
            && (u in Ids(remaining) <==> u in Ids(cast) && u != gone)
            && (u in Ids(remaining) ==>
                  && IndexOf(Ids(remaining), u) == IndexWithout(Ids(cast), gone, u)
                  && remaining[IndexOf(Ids(remaining), u)].fee == cast[IndexOf(Ids(cast), u)].fee)
  {
    CastIndex(rows, slot, gone);
    RemainingCast(rows, slot, gone);
    RemovedEntry(CastOf(rows, slot), gone, u);
  }

  lemma {:induction false} RemovedEntry(cast: seq<CastEntry>, gone: UserId, u: UserId)
    requires NoDup(Ids(cast)) && gone in Ids(cast)
    ensures var remaining := RemoveAt(cast, IndexOf(Ids(cast), gone));
            && NoDup(Ids(remaining))
            && (u in Ids(remaining) <==> u in Ids(cast) && u != gone)
            && (u in Ids(remaining) ==>
                  && IndexOf(Ids(remaining), u) == IndexWithout(Ids(cast), gone, u)
                  && remaining[IndexOf(Ids(remaining), u)].fee == cast[IndexOf(Ids(cast), u)].fee)
  {
    var k := IndexOf(Ids(cast), gone);
    RemovedIds(cast, k);
    RemovedNoDup(Ids(cast), k);
    RemovedIndex(Ids(cast), k, u);
  }

  /** The index of u once the entry of gone is taken out. */
  function IndexWithout(s: seq<UserId>, gone: UserId, u: UserId): nat
    requires gone in s && u in s
  {
    var i := IndexOf(s, u);
    if i <= IndexOf(s, gone) then i else i - 1
  }

  /** Taking one entry out of a list moves those behind it up by one. */
  lemma {:induction false} RemovedIndex(s: seq<UserId>, k: nat, u: UserId)
    requires NoDup(s) && k < |s|
    ensures IndexOf(s, s[k]) == k
    ensures u in RemoveAt(s, k) <==> u in s && u != s[k]
    ensures u in RemoveAt(s, k) ==> IndexOf(RemoveAt(s, k), u) == IndexWithout(s, s[k], u)
  {
    var r := RemoveAt(s, k);
    RemovedNoDup(s, k);
    IndexOfUnique(s, k);
    if u in r {
      var j :| 0 <= j < |r| && r[j] == u;
      assert s[if j < k then j else j + 1] == u;
    }
    if u in s {
      var i := IndexOf(s, u);
      RemovedStays(s, k, i);
      if i != k {
        var j := if i < k then i else i - 1;
        assert r[j] == u;
        IndexOfUnique(r, j);
      }
    }
  }

  lemma {:induction false} RemovedUsers(cast: seq<CastEntry>, k: nat)
    requires k < |cast|
    ensures UsersOf(RemoveAt(cast, k)) <= UsersOf(cast)
  {
    RemovedIds(cast, k);
    forall u | u in Ids(RemoveAt(cast, k)) ensures u in Ids(cast) {
      var i :| 0 <= i < |cast| - 1 && RemoveAt(Ids(cast), k)[i] == u;
      assert Ids(cast)[if i < k then i else i + 1] == u;
    }
  }

  /** A cancellation keeps log and bookings in agreement about everybody. */
  lemma {:induction false} CancelAgree(t: CastTables, qs: Quantities, b: Booking, now: int, p: PerfId, u: UserId)
    requires UniqueBookings(t.bookings) && GapFree(t.bookings) && OnSetup(t.bookings, qs) && b in t.bookings
    requires Agree(t, qs, p, u)
    ensures Agree(CancelBooking(t, qs, b.slot.perf, b.user, now), qs, p, u)
  {
    var c := CancelChange(t.bookings, qs, b);
    GapFreeOrdered(t.bookings);
    BookingOfUnique(t.bookings, b);
    CancelFits(t.bookings, qs, b);
    assert Init([c]) == [] && Last([c]) == c;
    assert RunQuantities(qs, [c]) == qs && Referenced(qs, [c]);
    if p == b.slot.perf {
      NotSilentInPlace(t.bookings, t.bookings, qs, c, u);
      RunAgree(t, qs, [c], now, p, u);
    } else {
      RunAgreeElsewhere(t, qs, [c], now, b.slot.perf, p, u);
    }
  }
}
