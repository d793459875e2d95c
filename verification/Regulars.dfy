/** Who counts as regular: three notions in the code, and exactly when they mean the same users. */
module Regulars {
  import opened Tables
  import opened CastDiff
  import opened Store

  /** By the stored order, as both status evaluators decide it. */
  predicate RegularAt(st: State, slot: Slot, u: UserId) {
    var b := BookingOf(st.tables.bookings, slot.perf, u);
    b.Some? && b.value.slot == slot && b.value.order < QuantityAt(st.quantities, slot)
  }

  /** The last entry of the list cut off at the quantity has an order below the quantity as well. */
  predicate Aligned(rows: seq<Booking>, qs: Quantities, slot: Slot) {
    var (here, quantity) := (At(rows, slot), QuantityAt(qs, slot));
    var n := Min(|here|, quantity);
    n == 0 || here[n - 1].order < quantity
  }

  /** Gap-free orders are more than enough. */
  lemma {:induction false} GapFreeAligned(rows: seq<Booking>, qs: Quantities, slot: Slot)
    requires GapFree(rows)
    ensures Aligned(rows, qs, slot)
  {
    var n := Min(|At(rows, slot)|, QuantityAt(qs, slot));
    if n > 0 {
      ContiguousOrder(At(rows, slot), n - 1);
    }
  }

  /** Row by row: being among the first rows and having an order below the quantity is the same. */
  lemma {:induction false} AlignedRows(here: seq<Booking>, quantity: nat)
    requires Ascending(here)
    ensures var n := Min(|here|, quantity);
            (n == 0 || here[n - 1].order < quantity)
            <==> forall i :: 0 <= i < |here| ==> (here[i].order < quantity <==> i < quantity)
  {
    var n := Min(|here|, quantity);
    forall i | 0 <= i < |here| ensures here[i].order < quantity ==> i < quantity {
      AscendingOrder(here, i);
    }
    if n > 0 && here[n - 1].order < quantity {
      forall i | 0 <= i < n - 1 ensures here[i].order < quantity {
        AscendingPair(here, i, n - 1);
      }
    }
  }

  /** Stored order and index in the list mean the same for the user. */
  predicate NotionsAgree(st: State, slot: Slot, u: UserId) {
    RegularAt(st, slot, u)
    <==> RegularIn(Ids(CastOf(st.tables.bookings, slot)), QuantityAt(st.quantities, slot), u)
  }

  /** They mean the same for all users, exactly if the position is aligned. */
  lemma {:induction false} NotionsExact(st: State, slot: Slot)
    requires UniqueBookings(st.tables.bookings) && Ordered(st.tables.bookings)
    ensures Aligned(st.tables.bookings, st.quantities, slot) <==> forall u :: NotionsAgree(st, slot, u)
  {
    var here, quantity := At(st.tables.bookings, slot), QuantityAt(st.quantities, slot);
    AlignedRows(here, quantity);
    if Aligned(st.tables.bookings, st.quantities, slot) {
      forall u ensures NotionsAgree(st, slot, u) {
        AlignedAgree(st, slot, u);
      }
    } else {
      var i :| 0 <= i < |here| && !(here[i].order < quantity <==> i < quantity);
      RowRegular(st, slot, i);
      assert !NotionsAgree(st, slot, here[i].user);
    }
  }

  lemma {:induction false} AlignedAgree(st: State, slot: Slot, u: UserId)
    requires UniqueBookings(st.tables.bookings) && Ordered(st.tables.bookings)
    requires Aligned(st.tables.bookings, st.quantities, slot)
    ensures NotionsAgree(st, slot, u)
  {
    var rows := st.tables.bookings;
    CastIndex(rows, slot, u);
    if u in Ids(CastOf(rows, slot)) {
      AlignedRows(At(rows, slot), QuantityAt(st.quantities, slot));
      assert At(rows, slot)[IndexOf(Ids(CastOf(rows, slot)), u)] == BookingOf(rows, slot.perf, u).value;
    }
  }

  /** The two notions, for the user of one row. */
  lemma {:induction false} RowRegular(st: State, slot: Slot, i: nat)
    requires UniqueBookings(st.tables.bookings) && Ordered(st.tables.bookings) && i < |At(st.tables.bookings, slot)|
    ensures var (row, quantity) := (At(st.tables.bookings, slot)[i], QuantityAt(st.quantities, slot));
            && (RegularAt(st, slot, row.user) <==> row.order < quantity)
            && (RegularIn(Ids(CastOf(st.tables.bookings, slot)), quantity, row.user) <==> i < quantity)
  {
    var rows := st.tables.bookings;
    var row := At(rows, slot)[i];
    BookingOfUnique(rows, row);
    CastIndex(rows, slot, row.user);
    CastOfOrdered(rows, slot);
    IndexOfUnique(Ids(CastOf(rows, slot)), i);
  }

  /** The list cut off at the quantity always holds the users whose index lies below it. */
  lemma {:induction false} PrefixIds(cast: seq<CastEntry>, n: nat, u: UserId)
    ensures u in Ids(cast[..Min(|cast|, n)]) <==> RegularIn(Ids(cast), n, u)
  {
    var prefix := Ids(cast[..Min(|cast|, n)]);
    assert prefix == Ids(cast)[..Min(|cast|, n)];
    if RegularIn(Ids(cast), n, u) {
      assert prefix[IndexOf(Ids(cast), u)] == u;
    }
  }

  /**
    The three notions of "regular" are one: stored order below the quantity (both status evaluators), index in the
    cast list below the quantity (the diff), and membership in the list cut off at the quantity (billing, messages).
  */
  lemma {:induction false} RegularNotions(st: State, slot: Slot, u: UserId)
    requires UniqueBookings(st.tables.bookings) && Ordered(st.tables.bookings)
    requires Aligned(st.tables.bookings, st.quantities, slot)
    ensures var (cast, quantity) := (CastOf(st.tables.bookings, slot), QuantityAt(st.quantities, slot));
            && (RegularAt(st, slot, u) <==> RegularIn(Ids(cast), quantity, u))
            && (RegularIn(Ids(cast), quantity, u) <==> u in Ids(cast[..Min(|cast|, quantity)]))
  {
    AlignedAgree(st, slot, u);
    PrefixIds(CastOf(st.tables.bookings, slot), QuantityAt(st.quantities, slot), u);
  }
}
