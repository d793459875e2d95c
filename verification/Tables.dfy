/**
  The tables behind the cast engine, as lists of rows: DELETE ... WHERE is a filter, INSERT appends,
  SELECT ... WHERE ... ORDER BY is a filter followed by a stable sort. Every query is restricted to one performance, so
  a slot (performance and position) addresses the rows of one cast.

  The lemmas say how the filters commute, what they leave of the unique index and of the order of the rows, and how the
  three ways to look at a cast go together: the rows at a slot, the list of entries they make up, and the one booking of
  a user.
*/
module Tables {
  import opened Positions

  type PerfId = nat
  type UserId = nat

  datatype Slot = Slot(perf: PerfId, key: PositionKey)

  /** One row of `bookings`: whether it is regular or standby is never stored, it is order < quantity. */
  datatype Booking = Booking(slot: Slot, user: UserId, order: nat, fee: nat)

  /** (user, fee): the exchange shape of the diff engine. */
  datatype CastEntry = CastEntry(user: UserId, fee: nat)

  type Quantities = map<Slot, nat>

  // ---- queries and statements ---------------------------------------------------------------

  /** SELECT ... WHERE performance_id = .. AND position = .. */
  function At(rows: seq<Booking>, slot: Slot): (r: seq<Booking>)
    ensures forall i :: 0 <= i < |r| ==> r[i].slot == slot && r[i] in rows
  {
    if rows == [] then []
    else At(rows[..|rows| - 1], slot) + (if rows[|rows| - 1].slot == slot then [rows[|rows| - 1]] else [])
  }

  /** DELETE ... WHERE performance_id = .. AND position = .. */
  function WithoutSlot(rows: seq<Booking>, slot: Slot): (r: seq<Booking>)
    ensures forall i :: 0 <= i < |r| ==> r[i].slot != slot && r[i] in rows
  {
    if rows == [] then []
    else WithoutSlot(rows[..|rows| - 1], slot) + (if rows[|rows| - 1].slot != slot then [rows[|rows| - 1]] else [])
  }

  predicate Hit(b: Booking, p: PerfId, us: set<UserId>) {
    b.slot.perf == p && b.user in us
  }

  /** DELETE ... WHERE performance_id = p AND user_id IN us */
  function WithoutUsers(rows: seq<Booking>, p: PerfId, us: set<UserId>): (r: seq<Booking>)
    ensures forall i :: 0 <= i < |r| ==> !Hit(r[i], p, us) && r[i] in rows
  {
    if rows == [] then []
    else WithoutUsers(rows[..|rows| - 1], p, us) + (if Hit(rows[|rows| - 1], p, us) then [] else [rows[|rows| - 1]])
  }

  /** ORDER BY "order": a stable insertion sort. */
  function InsertByOrder(sorted: seq<Booking>, b: Booking): seq<Booking> {
    if sorted == [] || sorted[|sorted| - 1].order <= b.order then sorted + [b]
    else InsertByOrder(sorted[..|sorted| - 1], b) + [sorted[|sorted| - 1]]
  }

  function SortByOrder(rows: seq<Booking>): seq<Booking> {
    if rows == [] then [] else InsertByOrder(SortByOrder(rows[..|rows| - 1]), rows[|rows| - 1])
  }

  function Entries(rows: seq<Booking>): (c: seq<CastEntry>)
    ensures |c| == |rows|
    ensures forall i :: 0 <= i < |rows| ==> c[i] == CastEntry(rows[i].user, rows[i].fee)
  {
    seq(|rows|, i requires 0 <= i < |rows| => CastEntry(rows[i].user, rows[i].fee))
  }

  function Ids(cast: seq<CastEntry>): (ids: seq<UserId>)
    ensures |ids| == |cast|
    ensures forall i :: 0 <= i < |cast| ==> ids[i] == cast[i].user
  {
    seq(|cast|, i requires 0 <= i < |cast| => cast[i].user)
  }

  /** The cast list of one position, as every reader gets it. */
  function CastOf(rows: seq<Booking>, slot: Slot): seq<CastEntry> {
    Entries(SortByOrder(At(rows, slot)))
  }

  /** The rows a cast list is stored as: order becomes the array index. */
  function NewRows(slot: Slot, cast: seq<CastEntry>): (r: seq<Booking>)
    ensures |r| == |cast|
    ensures forall i :: 0 <= i < |cast| ==> r[i] == Booking(slot, cast[i].user, i, cast[i].fee)
  {
    seq(|cast|, i requires 0 <= i < |cast| => Booking(slot, cast[i].user, i, cast[i].fee))
  }

  function UsersOf(cast: seq<CastEntry>): set<UserId> {
    set u | u in Ids(cast)
  }

  predicate NoDup<T(==)>(s: seq<T>) {
    s == [] || (s[|s| - 1] !in s[..|s| - 1] && NoDup(s[..|s| - 1]))
  }

  lemma {:induction false} NoDupPair<T>(s: seq<T>, i: nat, j: nat)
    requires NoDup(s) && i < |s| && j < |s|
    ensures s[i] == s[j] ==> i == j
  {
    var n := |s| - 1;
    if i < n && j < n {
      NoDupPair(s[..n], i, j);
    } else {
      assert forall k :: 0 <= k < n ==> s[..n][k] != s[n];
    }
  }

  lemma {:induction false} NoDupPrefix<T>(s: seq<T>, k: nat)
    requires NoDup(s) && k <= |s|
    ensures NoDup(s[..k])
  {
    if k == |s| {
      assert s[..k] == s;
    } else {
      var init := s[..|s| - 1];
      NoDupPrefix(init, k);
      assert init[..k] == s[..k];
    }
  }

  /** In a list without repetitions the index of an entry is its place. */
  lemma {:induction false} IndexOfUnique<T>(s: seq<T>, i: nat)
    requires NoDup(s) && i < |s|
    ensures IndexOf(s, s[i]) == i
  {
    NoDupPair(s, IndexOf(s, s[i]), i);
  }

  /** list.index: the first position of x. */
  function IndexOf<T(==)>(s: seq<T>, x: T): (i: nat)
    requires x in s
    ensures i < |s| && s[i] == x
    ensures forall j :: 0 <= j < i ==> s[j] != x
  {
    FirstIndexExists(s, x);
    var i: nat :| i < |s| && s[i] == x && forall j :: 0 <= j < i ==> s[j] != x;
    i
  }

  lemma {:induction false} FirstIndexExists<T>(s: seq<T>, x: T)
    requires x in s
    ensures exists i: nat :: i < |s| && s[i] == x && forall j :: 0 <= j < i ==> s[j] != x
  {
    var init := s[..|s| - 1];
    if x in init {
      FirstIndexExists(init, x);
      var i: nat :| i < |init| && init[i] == x && forall j :: 0 <= j < i ==> init[j] != x;
      assert s[i] == x && forall j :: 0 <= j < i ==> s[j] == init[j];
    } else {
      assert s == init + [s[|s| - 1]];
      assert s[|s| - 1] == x && forall j :: 0 <= j < |s| - 1 ==> s[j] == init[j];
    }
  }

  /** The user's booking on a performance (the last one, as a dict comprehension keeps it). */
  function BookingOf(rows: seq<Booking>, p: PerfId, u: UserId): (b: Option<Booking>)
    ensures b.Some? ==> b.value in rows && Hit(b.value, p, {u})
    ensures b.None? ==> forall r :: r in rows ==> !Hit(r, p, {u})
  {
    if rows == [] then None
    else
      var last := rows[|rows| - 1];
      assert rows == rows[..|rows| - 1] + [last];
      if Hit(last, p, {u}) then Some(last) else BookingOf(rows[..|rows| - 1], p, u)
  }

  function QuantityAt(qs: Quantities, slot: Slot): nat {
    if slot in qs then qs[slot] else 0
  }

  /** "Regular" as both status evaluators decide it: stored order < quantity. */
  predicate Regular(rows: seq<Booking>, qs: Quantities, p: PerfId, u: UserId) {
    match BookingOf(rows, p, u)
    case None => false
    case Some(b) => b.order < QuantityAt(qs, b.slot)
  }

  // ---- invariants of the bookings table -----------------------------------------------------

  /** UNIQUE(performance_id, user_id). */
  predicate UniqueBookings(rows: seq<Booking>) {
    rows == [] ||
    (var (init, last) := (rows[..|rows| - 1], rows[|rows| - 1]);
     BookingOf(init, last.slot.perf, last.user).None? && UniqueBookings(init))
  }

  predicate Ascending(rows: seq<Booking>) {
    |rows| < 2 || (rows[|rows| - 2].order < rows[|rows| - 1].order && Ascending(rows[..|rows| - 1]))
  }

  /** Orders exactly 0, 1, .., n-1, so stored order and list index are the same thing. */
  predicate Contiguous(rows: seq<Booking>) {
    rows == [] || (rows[|rows| - 1].order == |rows| - 1 && Contiguous(rows[..|rows| - 1]))
  }

  ghost predicate Ordered(rows: seq<Booking>) {
    forall slot :: Ascending(At(rows, slot))
  }

  ghost predicate GapFree(rows: seq<Booking>) {
    forall slot :: Contiguous(At(rows, slot))
  }

  // ---- algebra of the statements ------------------------------------------------------------

  lemma {:induction false} AtConcat(a: seq<Booking>, b: seq<Booking>, slot: Slot)
    ensures At(a + b, slot) == At(a, slot) + At(b, slot)
  {
    if b == [] {
      assert a + b == a;
    } else {
      assert (a + b)[..|a + b| - 1] == a + b[..|b| - 1];
      AtConcat(a, b[..|b| - 1], slot);
    }
  }

  lemma {:induction false} AtUniform(rows: seq<Booking>, from: Slot, slot: Slot)
    requires forall i :: 0 <= i < |rows| ==> rows[i].slot == from
    ensures At(rows, slot) == if slot == from then rows else []
  {
    if rows != [] {
      AtUniform(rows[..|rows| - 1], from, slot);
      assert rows == rows[..|rows| - 1] + [rows[|rows| - 1]];
    }
  }

  lemma {:induction false} AtWithoutSlot(rows: seq<Booking>, gone: Slot, slot: Slot)
    ensures At(WithoutSlot(rows, gone), slot) == if slot == gone then [] else At(rows, slot)
  {
    if rows != [] {
      var (init, last) := (rows[..|rows| - 1], rows[|rows| - 1]);
      AtWithoutSlot(init, gone, slot);
      AtUniform([last], last.slot, slot);
      if last.slot != gone {
        AtConcat(WithoutSlot(init, gone), [last], slot);
      } else {
        assert WithoutSlot(rows, gone) == WithoutSlot(init, gone);
      }
    }
  }

  lemma {:induction false} AtWithoutUsers(rows: seq<Booking>, p: PerfId, us: set<UserId>, slot: Slot)
    ensures At(WithoutUsers(rows, p, us), slot) == WithoutUsers(At(rows, slot), p, us)
  {
    if rows != [] {
      var (init, last) := (rows[..|rows| - 1], rows[|rows| - 1]);
      AtWithoutUsers(init, p, us, slot);
      AtUniform([last], last.slot, slot);
      if Hit(last, p, us) {
        assert WithoutUsers(rows, p, us) == WithoutUsers(init, p, us);
      } else {
        AtConcat(WithoutUsers(init, p, us), [last], slot);
      }
      if last.slot == slot {
        WithoutUsersConcat(At(init, slot), [last], p, us);
      } else {
        assert At(rows, slot) == At(init, slot);
      }
    }
  }

  lemma {:induction false} WithoutUsersConcat(a: seq<Booking>, b: seq<Booking>, p: PerfId, us: set<UserId>)
    ensures WithoutUsers(a + b, p, us) == WithoutUsers(a, p, us) + WithoutUsers(b, p, us)
  {
    if b == [] {
      assert a + b == a;
    } else {
      assert (a + b)[..|a + b| - 1] == a + b[..|b| - 1];
      WithoutUsersConcat(a, b[..|b| - 1], p, us);
    }
  }

  lemma {:induction false} WithoutUsersTwice(rows: seq<Booking>, p: PerfId, us: set<UserId>, vs: set<UserId>)
    ensures WithoutUsers(WithoutUsers(rows, p, us), p, vs) == WithoutUsers(rows, p, us + vs)
  {
    if rows != [] {
      var (init, last) := (rows[..|rows| - 1], rows[|rows| - 1]);
      WithoutUsersTwice(init, p, us, vs);
      if Hit(last, p, us) {
        assert WithoutUsers(rows, p, us) == WithoutUsers(init, p, us);
      } else {
        WithoutUsersConcat(WithoutUsers(init, p, us), [last], p, vs);
      }
    }
  }

  lemma {:induction false} WithoutUsersNone(rows: seq<Booking>, p: PerfId, us: set<UserId>)
    requires forall i :: 0 <= i < |rows| ==> !Hit(rows[i], p, us)
    ensures WithoutUsers(rows, p, us) == rows
  {
    if rows != [] {
      WithoutUsersNone(rows[..|rows| - 1], p, us);
      assert rows == rows[..|rows| - 1] + [rows[|rows| - 1]];
    }
  }

  /** A deletion that hits nobody else keeps every other row. */
  lemma {:induction false} WithoutUsersMember(rows: seq<Booking>, p: PerfId, us: set<UserId>, b: Booking)
    ensures b in WithoutUsers(rows, p, us) <==> b in rows && !Hit(b, p, us)
  {
    if rows != [] {
      WithoutUsersMember(rows[..|rows| - 1], p, us, b);
      assert rows == rows[..|rows| - 1] + [rows[|rows| - 1]];
    }
  }

  lemma {:induction false} AtMember(rows: seq<Booking>, slot: Slot, b: Booking)
    ensures b in At(rows, slot) <==> b in rows && b.slot == slot
  {
    if rows != [] {
      AtMember(rows[..|rows| - 1], slot, b);
      assert rows == rows[..|rows| - 1] + [rows[|rows| - 1]];
    }
  }

  lemma {:induction false} WithoutSlotMember(rows: seq<Booking>, slot: Slot, b: Booking)
    ensures b in WithoutSlot(rows, slot) <==> b in rows && b.slot != slot
  {
    if rows != [] {
      WithoutSlotMember(rows[..|rows| - 1], slot, b);
      assert rows == rows[..|rows| - 1] + [rows[|rows| - 1]];
    }
  }

  lemma {:induction false} NewRowsContiguous(slot: Slot, cast: seq<CastEntry>)
    ensures Contiguous(NewRows(slot, cast))
  {
    if cast != [] {
      var n := |cast| - 1;
      NewRowsContiguous(slot, cast[..n]);
      assert NewRows(slot, cast)[..n] == NewRows(slot, cast[..n]);
    }
  }

  // ---- the subsequences a deletion leaves ---------------------------------------------------

  lemma {:induction false} AtUnique(rows: seq<Booking>, slot: Slot)
    requires UniqueBookings(rows)
    ensures UniqueBookings(At(rows, slot))
  {
    if rows != [] {
      var init, last := rows[..|rows| - 1], rows[|rows| - 1];
      AtUnique(init, slot);
      if last.slot == slot {
        assert At(rows, slot)[..|At(rows, slot)| - 1] == At(init, slot);
      } else {
        assert At(rows, slot) == At(init, slot);
      }
    }
  }

  lemma {:induction false} WithoutSlotUnique(rows: seq<Booking>, slot: Slot)
    requires UniqueBookings(rows)
    ensures UniqueBookings(WithoutSlot(rows, slot))
  {
    if rows != [] {
      var init, last := rows[..|rows| - 1], rows[|rows| - 1];
      WithoutSlotUnique(init, slot);
      if last.slot != slot {
        assert WithoutSlot(rows, slot)[..|WithoutSlot(rows, slot)| - 1] == WithoutSlot(init, slot);
      } else {
        assert WithoutSlot(rows, slot) == WithoutSlot(init, slot);
      }
    }
  }

  lemma {:induction false} WithoutUsersUnique(rows: seq<Booking>, p: PerfId, us: set<UserId>)
    requires UniqueBookings(rows)
    ensures UniqueBookings(WithoutUsers(rows, p, us))
  {
    if rows != [] {
      var init, last := rows[..|rows| - 1], rows[|rows| - 1];
      WithoutUsersUnique(init, p, us);
      if Hit(last, p, us) {
        assert WithoutUsers(rows, p, us) == WithoutUsers(init, p, us);
      } else {
        assert WithoutUsers(rows, p, us)[..|WithoutUsers(rows, p, us)| - 1] == WithoutUsers(init, p, us);
      }
    }
  }

  lemma {:induction false} AscendingBelow(rows: seq<Booking>, i: nat)
    requires Ascending(rows) && i < |rows| - 1
    ensures rows[i].order < rows[|rows| - 1].order
  {
    if i < |rows| - 2 {
      AscendingBelow(rows[..|rows| - 1], i);
    }
  }

  lemma {:induction false} AscendingPair(rows: seq<Booking>, i: nat, j: nat)
    requires Ascending(rows) && i < j < |rows|
    ensures rows[i].order < rows[j].order
  {
    if j < |rows| - 1 {
      AscendingPair(rows[..|rows| - 1], i, j);
    } else {
      AscendingBelow(rows, i);
    }
  }

  lemma {:induction false} WithoutUsersAscending(rows: seq<Booking>, p: PerfId, us: set<UserId>)
    requires Ascending(rows)
    ensures Ascending(WithoutUsers(rows, p, us))
  {
    if rows != [] {
      var init, last := rows[..|rows| - 1], rows[|rows| - 1];
      WithoutUsersAscending(init, p, us);
      var kept := WithoutUsers(init, p, us);
      if Hit(last, p, us) {
        assert WithoutUsers(rows, p, us) == kept;
      } else if kept != [] {
        var i :| 0 <= i < |init| && init[i] == kept[|kept| - 1];
        AscendingBelow(rows, i);
        assert WithoutUsers(rows, p, us)[..|kept|] == kept;
      }
    }
  }

  lemma {:induction false} SortAscending(rows: seq<Booking>)
    requires Ascending(rows)
    ensures SortByOrder(rows) == rows
  {
    if rows != [] {
      SortAscending(rows[..|rows| - 1]);
      assert rows == rows[..|rows| - 1] + [rows[|rows| - 1]];
    }
  }

  /** In an ordered table the cast list is the rows of the slot, in place. */
  lemma {:induction false} CastOfOrdered(rows: seq<Booking>, slot: Slot)
    requires Ascending(At(rows, slot))
    ensures CastOf(rows, slot) == Entries(At(rows, slot))
  {
    SortAscending(At(rows, slot));
  }

  lemma {:induction false} AscendingOrder(rows: seq<Booking>, i: nat)
    requires Ascending(rows) && i < |rows|
    ensures i <= rows[i].order
  {
    if i < |rows| - 1 {
      AscendingOrder(rows[..|rows| - 1], i);
    } else if i > 0 {
      AscendingOrder(rows[..i], i - 1);
    }
  }

  lemma {:induction false} ContiguousOrder(rows: seq<Booking>, i: nat)
    requires Contiguous(rows) && i < |rows|
    ensures rows[i].order == i
  {
    if i < |rows| - 1 {
      ContiguousOrder(rows[..|rows| - 1], i);
    }
  }

  lemma {:induction false} ContiguousAscending(rows: seq<Booking>)
    requires Contiguous(rows)
    ensures Ascending(rows)
  {
    if |rows| >= 2 {
      ContiguousAscending(rows[..|rows| - 1]);
    }
  }

  lemma {:induction false} BookingOfUnique(rows: seq<Booking>, b: Booking)
    requires UniqueBookings(rows) && b in rows
    ensures BookingOf(rows, b.slot.perf, b.user) == Some(b)
  {
    var last := rows[|rows| - 1];
    assert rows == rows[..|rows| - 1] + [last];
    if b != last {
      assert b in rows[..|rows| - 1];
      BookingOfUnique(rows[..|rows| - 1], b);
    }
  }

  /** UNIQUE makes the users of one position's rows distinct. */
  lemma {:induction false} UniqueIds(rows: seq<Booking>, p: PerfId)
    requires UniqueBookings(rows) && forall i :: 0 <= i < |rows| ==> rows[i].slot.perf == p
    ensures NoDup(Ids(Entries(rows)))
  {
    if rows != [] {
      var n := |rows| - 1;
      var ids := Ids(Entries(rows));
      UniqueIds(rows[..n], p);
      assert ids[..n] == Ids(Entries(rows[..n]));
      forall i | 0 <= i < n ensures ids[i] != rows[n].user {
        assert rows[..n][i] in rows[..n];
      }
    }
  }

  /** Where a user stands in a cast list, read off the booking row: unique, and never after its stored order. */
  lemma {:induction false} CastIndex(rows: seq<Booking>, slot: Slot, u: UserId)
    requires UniqueBookings(rows) && Ascending(At(rows, slot))
    ensures NoDup(Ids(CastOf(rows, slot)))
    ensures u in Ids(CastOf(rows, slot)) <==>
            BookingOf(rows, slot.perf, u).Some? && BookingOf(rows, slot.perf, u).value.slot == slot
    ensures u in Ids(CastOf(rows, slot)) ==>
            var i := IndexOf(Ids(CastOf(rows, slot)), u);
            && |At(rows, slot)| == |CastOf(rows, slot)|
            && At(rows, slot)[i] == BookingOf(rows, slot.perf, u).value
            && i <= BookingOf(rows, slot.perf, u).value.order
  {
    CastOfOrdered(rows, slot);
    AtUnique(rows, slot);
    var here, ids := At(rows, slot), Ids(CastOf(rows, slot));
    UniqueIds(here, slot.perf);
    if u in ids {
      var i := IndexOf(ids, u);
      BookingOfUnique(rows, here[i]);
      AscendingOrder(here, i);
    }
    if BookingOf(rows, slot.perf, u).Some? && BookingOf(rows, slot.perf, u).value.slot == slot {
      AtMember(rows, slot, BookingOf(rows, slot.perf, u).value);
      var i :| 0 <= i < |here| && here[i] == BookingOf(rows, slot.perf, u).value;
      assert ids[i] == u;
    }
  }
}
