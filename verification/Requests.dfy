/** Saving a cast, from the lists of the request to the answer, the rows and the log. */
module Requests {
  import opened Positions
  import opened Tables
  import opened CastDiff
  import opened BookingLogs
  import opened SaveItem
  import opened ApplyChanges
  import opened CastSave
  import opened SetupChange
  import opened Store
  import opened Invariant
  import opened Assumptions

  /** A position and the list the request gives for it. */
  type Section = (PositionKey, seq<CastEntry>)

  /** The request's lists as the service reads them: the last list given for a position counts. */
  function PayloadOf(sections: seq<Section>): Payload {
    if sections == [] then map[]
    else
      var last := sections[|sections| - 1];
      PayloadOf(sections[..|sections| - 1])[last.0 := last.1]
  }

  /** No later list is given for the same position. */
  predicate Counts(sections: seq<Section>, i: int) {
    0 <= i < |sections| && forall j :: i < j < |sections| ==> sections[j].0 != sections[i].0
  }

  lemma {:induction false} PayloadAt(sections: seq<Section>, key: PositionKey)
    ensures if key in PayloadOf(sections)
            then exists i :: Counts(sections, i) && sections[i] == (key, PayloadOf(sections)[key])
            else forall i :: 0 <= i < |sections| ==> sections[i].0 != key
  {
    if sections != [] {
      var init, n := sections[..|sections| - 1], |sections| - 1;
      if sections[n].0 == key {
        assert Counts(sections, n);
      } else {
        PayloadAt(init, key);
        if key in PayloadOf(init) {
          var i :| Counts(init, i) && init[i] == (key, PayloadOf(init)[key]);
          assert init[i] == sections[i] && forall j :: i < j < n ==> init[j] == sections[j];
          assert Counts(sections, i);
        }
        assert forall i :: 0 <= i < n ==> init[i] == sections[i];
      }
    }
  }

  /** The list that counts for a position is the one the service looks up; a position without a list has none. */
  lemma {:induction false} PayloadMeans(sections: seq<Section>)
    ensures forall i :: Counts(sections, i) ==>
              sections[i].0 in PayloadOf(sections) && PayloadOf(sections)[sections[i].0] == sections[i].1
    ensures forall key :: key in PayloadOf(sections) ==> exists i :: Counts(sections, i) && sections[i].0 == key
    ensures forall i :: 0 <= i < |sections| ==> sections[i].0 in PayloadOf(sections)
  {
    forall i | Counts(sections, i)
      ensures sections[i].0 in PayloadOf(sections) && PayloadOf(sections)[sections[i].0] == sections[i].1
    {
      PayloadAt(sections, sections[i].0);
    }
    forall key | key in PayloadOf(sections) ensures exists i :: Counts(sections, i) && sections[i].0 == key {
      PayloadAt(sections, key);
    }
    forall i | 0 <= i < |sections| ensures sections[i].0 in PayloadOf(sections) {
      PayloadAt(sections, sections[i].0);
    }
  }

  // ---- the changes a request comes to -------------------------------------------------------

  /** Every change stands for one position of the setup, in processing order, with the list that counts for it. */
  lemma {:induction false} ChangeOf(st: State, p: PerfId, sections: seq<Section>, n: nat)
    requires n < |ChangesOf(st, p, PayloadOf(sections))|
    ensures var c := ChangesOf(st, p, PayloadOf(sections))[n];
            && c.slot.perf == p && c.slot in st.quantities && c.quantity == st.quantities[c.slot]
            && c.oldQuantity.None?
            && (forall i :: Counts(sections, i) && sections[i].0 == c.slot.key ==> c.Cast() == sections[i].1)
            && (c.Cast() != [] ==> exists i :: Counts(sections, i) && sections[i].0 == c.slot.key)
  {
    ItemsAmongQuantity(Order(st.catalog), st.quantities, p, n);
    PayloadMeans(sections);
  }

  lemma {:induction false} ChangeFor(st: State, p: PerfId, sections: seq<Section>, slot: Slot) returns (n: nat)
    requires References(st) && slot.perf == p && slot in st.quantities
    ensures n < |ChangesOf(st, p, PayloadOf(sections))| && ChangesOf(st, p, PayloadOf(sections))[n].slot == slot
  {
    SaveChangesTouched(p, GetSetup(st, p), PayloadOf(sections), slot);
    ItemsAmongKeys(Order(st.catalog), st.quantities, p, slot.key);
    n := TouchedIndex(ChangesOf(st, p, PayloadOf(sections)), slot);
  }

  lemma {:induction false} RequestWellFormed(st: State, p: PerfId, sections: seq<Section>)
    requires References(st) && AllAcceptable(ChangesOf(st, p, PayloadOf(sections)), st.verified.Keys)
    ensures WellFormed(ChangesOf(st, p, PayloadOf(sections)), p)
  {
    ItemsAmongOk(Order(st.catalog), st.quantities, p);
    SaveChangesWellFormed(p, GetSetup(st, p), PayloadOf(sections), st.verified.Keys);
  }

  // ---- the answer ---------------------------------------------------------------------------

  /** A list that counts, for a position of the setup, names a user twice or names nobody's id. */
  predicate Refused(st: State, p: PerfId, sections: seq<Section>, i: int) {
    && Counts(sections, i) && Slot(p, sections[i].0) in st.quantities
    && var cast := sections[i].1;
    || (exists a, b :: 0 <= a < b < |cast| && cast[a].user == cast[b].user)
    || (exists a :: 0 <= a < |cast| && cast[a].user !in st.verified)
  }

  lemma {:induction false} NoDupMeans(s: seq<UserId>)
    ensures NoDup(s) <==> forall a, b :: 0 <= a < b < |s| ==> s[a] != s[b]
  {
    if s != [] {
      var n := |s| - 1;
      NoDupMeans(s[..n]);
      if NoDup(s) {
        forall a, b | 0 <= a < b < |s| ensures s[a] != s[b] {
          NoDupPair(s, a, b);
        }
      }
      if forall a, b :: 0 <= a < b < |s| ==> s[a] != s[b] {
        assert forall a, b :: 0 <= a < b < n ==> s[..n][a] != s[..n][b];
        assert forall a :: 0 <= a < n ==> s[..n][a] != s[n];
      }
    }
  }

  lemma {:induction false} CastAcceptable(cast: seq<CastEntry>, users: set<UserId>)
    ensures (NoDup(Ids(cast)) && forall u :: u in Ids(cast) ==> u in users)
            <==> && (forall a, b :: 0 <= a < b < |cast| ==> cast[a].user != cast[b].user)
                 && (forall a :: 0 <= a < |cast| ==> cast[a].user in users)
  {
    var ids := Ids(cast);
    NoDupMeans(ids);
    forall a | 0 <= a < |cast| ensures ids[a] == cast[a].user && cast[a].user in ids {
      assert ids[a] in ids;
    }
    forall a, b | 0 <= a < b < |cast| ensures ids[a] == cast[a].user && ids[b] == cast[b].user {
    }
  }

  lemma {:induction false} AcceptableMeans(st: State, p: PerfId, sections: seq<Section>)
    requires References(st)
    ensures AllAcceptable(ChangesOf(st, p, PayloadOf(sections)), st.verified.Keys)
            <==> !exists i :: Refused(st, p, sections, i)
  {
    var changes := ChangesOf(st, p, PayloadOf(sections));
    if i :| Refused(st, p, sections, i) {
      var n := ChangeFor(st, p, sections, Slot(p, sections[i].0));
      ChangeOf(st, p, sections, n);
      CastAcceptable(sections[i].1, st.verified.Keys);
      assert !Acceptable(changes[n], st.verified.Keys);
    } else {
      forall n | 0 <= n < |changes| ensures Acceptable(changes[n], st.verified.Keys) {
        ChangeOf(st, p, sections, n);
        if changes[n].Cast() != [] {
          var i :| Counts(sections, i) && sections[i].0 == changes[n].slot.key;
          CastAcceptable(sections[i].1, st.verified.Keys);
          assert Slot(p, sections[i].0) == changes[n].slot && !Refused(st, p, sections, i);
        }
      }
    }
  }

  /** What a save answers, and that anything but success changes nothing. */
  lemma {:induction false} SaveAnswer(st: State, p: PerfId, sections: seq<Section>, notBooked: seq<UserId>, now: int)
    requires References(st)
    ensures var (st', outcome) := SaveCast(st, p, PayloadOf(sections), notBooked, now);
            && (outcome == NotFound <==> p !in st.schedule)
            && (outcome == InPast <==> p in st.schedule && st.schedule[p] < now)
            && (outcome == Aborted
                <==> p in st.schedule && st.schedule[p] >= now && exists i :: Refused(st, p, sections, i))
            && (outcome == Done
                <==> p in st.schedule && st.schedule[p] >= now && !exists i :: Refused(st, p, sections, i))
            && (outcome != Done ==> st' == st)
            && (outcome == Done ==> st' == st.(now := now, tables := st'.tables, requests := st'.requests))
  {
    AcceptableMeans(st, p, sections);
  }

  /** Rejected afterwards are, among those who had asked, exactly the listed ones without a booking. */
  lemma {:induction false} SaveRejects(st: State, p: PerfId, sections: seq<Section>, notBooked: seq<UserId>, now: int,
                                       q: PerfId, u: UserId)
    requires SaveCast(st, p, PayloadOf(sections), notBooked, now).1 == Done
    ensures var st' := SaveCast(st, p, PayloadOf(sections), notBooked, now).0;
            && ((q, u) in st'.requests <==> (q, u) in st.requests)
            && ((q, u) in st.requests && q != p ==> st'.requests[(q, u)] == st.requests[(q, u)])
            && ((p, u) in st.requests ==>
                  (st'.requests[(p, u)]
                   <==> && (exists k :: 0 <= k < |notBooked| && notBooked[k] == u)
                        && forall b :: b in st'.tables.bookings ==> b.slot.perf != p || b.user != u))
  {
  }

  // ---- the bookings afterwards --------------------------------------------------------------

  lemma {:induction false} ListedFrom(changes: seq<Change>, lo: nat, u: UserId) returns (n: nat)
    requires u in UsersIn(changes, lo)
    ensures lo <= n < |changes| && u in Ids(changes[n].Cast())
  {
    if u in Ids(Last(changes).Cast()) {
      n := |changes| - 1;
    } else {
      n := ListedFrom(Init(changes), lo, u);
    }
  }

  lemma {:induction false} UnlistedFrom(changes: seq<Change>, lo: nat, u: UserId)
    requires forall n :: lo <= n < |changes| ==> u !in Ids(changes[n].Cast())
    ensures u !in UsersIn(changes, lo)
  {
    if |changes| > lo {
      UnlistedFrom(Init(changes), lo, u);
    }
  }

  predicate NobodyIn(a: seq<CastEntry>, b: seq<CastEntry>) {
    forall k, l :: 0 <= k < |a| && 0 <= l < |b| ==> a[k].user != b[l].user
  }

  /** The request lists nobody for two different positions. */
  predicate DisjointRequest(sections: seq<Section>) {
    forall i, j :: 0 <= i < |sections| && 0 <= j < |sections| && sections[i].0 != sections[j].0 ==>
                     NobodyIn(sections[i].1, sections[j].1)
  }

  lemma {:induction false} DisjointMeans(sections: seq<Section>)
    ensures DisjointRequest(sections)
            <==> !exists i, j, a, b ::
                    && 0 <= i < |sections| && 0 <= j < |sections| && sections[i].0 != sections[j].0
                    && 0 <= a < |sections[i].1| && 0 <= b < |sections[j].1|
                    && sections[i].1[a].user == sections[j].1[b].user
  {
    if !DisjointRequest(sections) {
      var i, j :| && 0 <= i < |sections| && 0 <= j < |sections| && sections[i].0 != sections[j].0
                  && !NobodyIn(sections[i].1, sections[j].1);
    }
  }

  lemma {:induction false} RequestDisjoint(st: State, p: PerfId, sections: seq<Section>)
    requires References(st) && DisjointRequest(sections)
    requires WellFormed(ChangesOf(st, p, PayloadOf(sections)), p)
    ensures Disjoint(ChangesOf(st, p, PayloadOf(sections)))
  {
    var changes := ChangesOf(st, p, PayloadOf(sections));
    forall m, a | 0 <= m < |changes| && 0 <= a < |changes[m].Cast()|
      ensures changes[m].Cast()[a].user !in UsersIn(changes, m + 1)
    {
      var u := changes[m].Cast()[a].user;
      if u in UsersIn(changes, m + 1) {
        var n := ListedFrom(changes, m + 1, u);
        var b := IndexOf(Ids(changes[n].Cast()), u);
        ChangeOf(st, p, sections, m);
        ChangeOf(st, p, sections, n);
        var i :| Counts(sections, i) && sections[i].0 == changes[m].slot.key;
        var j :| Counts(sections, j) && sections[j].0 == changes[n].slot.key;
        SlotsApart(changes, p, m, n);
        assert false;
      }
    }
  }

  lemma {:induction false} SlotsApart(changes: seq<Change>, p: PerfId, m: nat, n: nat)
    requires WellFormed(changes, p) && m < n < |changes|
    ensures changes[m].slot != changes[n].slot && changes[m].slot.perf == changes[n].slot.perf
  {
    if n == |changes| - 1 {
      TouchedAt(Init(changes), m);
      FitsAt(changes, p, m);
    } else {
      SlotsApart(Init(changes), p, m, n);
    }
  }

  /** A request that lists nobody at two positions is stored as it is: each position holds its list, from order 0 on. */
  lemma {:induction false} SaveStoresRequest(st: State, p: PerfId, sections: seq<Section>, notBooked: seq<UserId>,
                                             now: int, key: PositionKey)
    requires References(st) && DisjointRequest(sections) && Slot(p, key) in st.quantities
    requires SaveCast(st, p, PayloadOf(sections), notBooked, now).1 == Done
    ensures var rows := SaveCast(st, p, PayloadOf(sections), notBooked, now).0.tables.bookings;
            && (forall i :: Counts(sections, i) && sections[i].0 == key ==>
                  At(rows, Slot(p, key)) == NewRows(Slot(p, key), sections[i].1))
            && ((forall i :: 0 <= i < |sections| ==> sections[i].0 != key) ==> At(rows, Slot(p, key)) == [])
  {
    var changes := ChangesOf(st, p, PayloadOf(sections));
    RequestWellFormed(st, p, sections);
    RequestDisjoint(st, p, sections);
    RunBookings(st.tables, changes, now);
    var n := ChangeFor(st, p, sections, Slot(p, key));
    ChangeOf(st, p, sections, n);
    SaveDisjoint(st.tables.bookings, changes, p, n);
  }

  /** The bookings of other performances stay. */
  lemma {:induction false} SaveElsewhere(st: State, p: PerfId, sections: seq<Section>, notBooked: seq<UserId>, now: int,
                                         b: Booking)
    requires References(st) && b.slot.perf != p
    requires SaveCast(st, p, PayloadOf(sections), notBooked, now).1 == Done
    ensures b in SaveCast(st, p, PayloadOf(sections), notBooked, now).0.tables.bookings <==> b in st.tables.bookings
  {
    var changes, rows := ChangesOf(st, p, PayloadOf(sections)), st.tables.bookings;
    RequestWellFormed(st, p, sections);
    RunBookings(st.tables, changes, now);
    if Touched(changes, b.slot) {
      var n := TouchedIndex(changes, b.slot);
      FitsAt(changes, p, n);
    }
    RunAtUntouched(rows, changes, p, b.slot);
    WithoutUsersNone(At(rows, b.slot), p, UsersIn(changes, 0));
    AtMember(rows, b.slot, b);
    AtMember(RunRows(rows, changes), b.slot, b);
  }

  // ---- a user listed at several positions ---------------------------------------------------

  /** Processing order: instruments, voices, choirjobs, each in the order the administrator gave them. */
  lemma {:induction false} OrderMeans(catalog: Catalog)
    ensures var (i, v, c) := (|catalog.instruments|, |catalog.voices|, |catalog.choirjobs|);
            && |Order(catalog)| == i + v + c
            && (forall k :: 0 <= k < i ==> Order(catalog)[k] == PositionKey(Instruments, catalog.instruments[k]))
            && (forall k :: 0 <= k < v ==> Order(catalog)[i + k] == PositionKey(Voices, catalog.voices[k]))
            && (forall k :: 0 <= k < c ==> Order(catalog)[i + v + k] == PositionKey(Choirjobs, catalog.choirjobs[k]))
  {
  }

  lemma {:induction false} IndexInPrefix(keys: seq<PositionKey>, key: PositionKey)
    requires keys != [] && NoDup(keys) && key in keys[..|keys| - 1]
    ensures key in keys && IndexOf(keys, key) == IndexOf(keys[..|keys| - 1], key)
  {
    var i := IndexOf(keys[..|keys| - 1], key);
    assert keys[i] == key;
    IndexOfUnique(keys, i);
  }

  lemma {:induction false} ItemsInOrder(keys: seq<PositionKey>, qs: Quantities, p: PerfId, m: nat, n: nat)
    requires NoDup(keys) && m < n < |ItemsAmong(keys, qs, p)|
    ensures var items := ItemsAmong(keys, qs, p);
            items[m].key in keys && items[n].key in keys && IndexOf(keys, items[m].key) < IndexOf(keys, items[n].key)
  {
    var init, items := keys[..|keys| - 1], ItemsAmong(keys, qs, p);
    var before := ItemsAmong(init, qs, p);
    assert Keys(before)[m] == before[m].key;
    ItemsAmongKeys(init, qs, p, before[m].key);
    IndexInPrefix(keys, items[m].key);
    if n < |before| {
      ItemsInOrder(init, qs, p, m, n);
      IndexInPrefix(keys, items[n].key);
    } else {
      IndexOfUnique(keys, |keys| - 1);
    }
  }

  /** Of all lists that count and name the user, for positions of the setup, none is processed after this one. */
  ghost predicate ProcessedLast(st: State, p: PerfId, sections: seq<Section>, u: UserId, i: int) {
    && Counts(sections, i) && Slot(p, sections[i].0) in st.quantities && sections[i].0 in Order(st.catalog)
    && forall j :: Counts(sections, j) && Slot(p, sections[j].0) in st.quantities && u in Ids(sections[j].1) ==>
         && sections[j].0 in Order(st.catalog)
         && IndexOf(Order(st.catalog), sections[j].0) <= IndexOf(Order(st.catalog), sections[i].0)
  }

  lemma {:induction false} ProcessedLastChange(st: State, p: PerfId, sections: seq<Section>, u: UserId, i: nat)
    returns (n: nat)
    requires References(st) && WellFormed(ChangesOf(st, p, PayloadOf(sections)), p)
    requires ProcessedLast(st, p, sections, u, i)
    ensures var changes := ChangesOf(st, p, PayloadOf(sections));
            && n < |changes| && changes[n].slot == Slot(p, sections[i].0) && changes[n].Cast() == sections[i].1
            && u !in UsersIn(changes, n + 1)
  {
    var changes, items := ChangesOf(st, p, PayloadOf(sections)), GetSetup(st, p);
    n := ChangeFor(st, p, sections, Slot(p, sections[i].0));
    ChangeOf(st, p, sections, n);
    forall m | n < m < |changes| ensures u !in Ids(changes[m].Cast()) {
      ChangeOf(st, p, sections, m);
      assert changes[m].slot.key == items[m].key && changes[n].slot.key == items[n].key;
      ItemsInOrder(Order(st.catalog), st.quantities, p, n, m);
      if u in Ids(changes[m].Cast()) {
        assert false;
      }
    }
    UnlistedFrom(changes, n + 1, u);
  }

  /** A user listed at several positions is booked on the one processed last, at its place in that list. */
  lemma {:induction false} SaveBooks(st: State, p: PerfId, sections: seq<Section>, notBooked: seq<UserId>, now: int,
                                     i: nat, k: nat)
    requires Sound(st) && SaveCast(st, p, PayloadOf(sections), notBooked, now).1 == Done
    requires Counts(sections, i) && k < |sections[i].1| && Slot(p, sections[i].0) in st.quantities
    requires forall j :: && Counts(sections, j) && Slot(p, sections[j].0) in st.quantities
                         && sections[i].1[k].user in Ids(sections[j].1) ==>
               && sections[i].0 in Order(st.catalog) && sections[j].0 in Order(st.catalog)
               && IndexOf(Order(st.catalog), sections[j].0) <= IndexOf(Order(st.catalog), sections[i].0)
    ensures var rows := SaveCast(st, p, PayloadOf(sections), notBooked, now).0.tables.bookings;
            var e := sections[i].1[k];
            BookingOf(rows, p, e.user) == Some(Booking(Slot(p, sections[i].0), e.user, k, e.fee))
  {
    var changes, u := ChangesOf(st, p, PayloadOf(sections)), sections[i].1[k].user;
    RequestWellFormed(st, p, sections);
    RunBookings(st.tables, changes, now);
    var n := ProcessedLastChange(st, p, sections, u, i);
    FitsAt(changes, p, n);
    assert Ids(changes[n].Cast())[k] == u;
    IndexOfUnique(Ids(changes[n].Cast()), k);
    RunBookingListed(st.tables.bookings, changes, p, n, u);
  }

  /** A user no list of the setup names has no booking on the performance afterwards. */
  lemma {:induction false} SaveDrops(st: State, p: PerfId, sections: seq<Section>, notBooked: seq<UserId>, now: int,
                                     u: UserId)
    requires Sound(st) && SaveCast(st, p, PayloadOf(sections), notBooked, now).1 == Done
    requires forall i :: Counts(sections, i) && Slot(p, sections[i].0) in st.quantities ==> u !in Ids(sections[i].1)
    ensures forall b :: b in SaveCast(st, p, PayloadOf(sections), notBooked, now).0.tables.bookings ==>
              b.slot.perf != p || b.user != u
  {
    var changes, rows := ChangesOf(st, p, PayloadOf(sections)), st.tables.bookings;
    RequestWellFormed(st, p, sections);
    RunBookings(st.tables, changes, now);
    forall n | 0 <= n < |changes| ensures u !in Ids(changes[n].Cast()) {
      ChangeOf(st, p, sections, n);
      if u in Ids(changes[n].Cast()) {
        assert false;
      }
    }
    UnlistedFrom(changes, 0, u);
    RunBookingUnlisted(rows, changes, p, p, u);
    if BookingOf(rows, p, u).Some? {
      var slot := BookingOf(rows, p, u).value.slot;
      SaveChangesTouched(p, GetSetup(st, p), PayloadOf(sections), slot);
      ItemsAmongKeys(Order(st.catalog), st.quantities, p, slot.key);
    }
  }

  // ---- what is enough for a good save -------------------------------------------------------

  /** Nobody is listed at a position processed before the one it is booked on. */
  ghost predicate NobodyMovesBack(st: State, p: PerfId, sections: seq<Section>) {
    forall i, b :: && Counts(sections, i) && Slot(p, sections[i].0) in st.quantities && b in st.tables.bookings
                   && b.slot.perf == p && b.user in Ids(sections[i].1)
                   && sections[i].0 in Order(st.catalog) && b.slot.key in Order(st.catalog) ==>
      IndexOf(Order(st.catalog), sections[i].0) >= IndexOf(Order(st.catalog), b.slot.key)
  }

  lemma {:induction false} MovesBackChanges(st: State, p: PerfId, sections: seq<Section>, n: nat, j: nat, u: UserId)
    requires References(st) && NobodyMovesBack(st, p, sections)
    requires n < j < |ChangesOf(st, p, PayloadOf(sections))|
    requires u in Ids(ChangesOf(st, p, PayloadOf(sections))[n].Cast()) && BookingOf(st.tables.bookings, p, u).Some?
    ensures BookingOf(st.tables.bookings, p, u).value.slot != ChangesOf(st, p, PayloadOf(sections))[j].slot
  {
    var changes, items := ChangesOf(st, p, PayloadOf(sections)), GetSetup(st, p);
    var b := BookingOf(st.tables.bookings, p, u).value;
    ChangeOf(st, p, sections, n);
    ItemsInOrder(Order(st.catalog), st.quantities, p, n, j);
    assert changes[n].slot.key == items[n].key && changes[j].slot.key == items[j].key;
    var i :| Counts(sections, i) && sections[i].0 == changes[n].slot.key;
    assert Slot(p, sections[i].0) == changes[n].slot && b.user == u;
  }

  /** A request that lists nobody twice and moves nobody back leaves no gap and a faithful log. */
  lemma {:induction false} RequestSuffices(st: State, p: PerfId, sections: seq<Section>, notBooked: seq<UserId>,
                                           now: int)
    requires Sound(st) && GapFree(st.tables.bookings) && Faithful(st)
    requires SaveCast(st, p, PayloadOf(sections), notBooked, now).1 == Done
    requires DisjointRequest(sections)
    requires forall i, b :: && Counts(sections, i) && Slot(p, sections[i].0) in st.quantities && b in st.tables.bookings
                            && b.slot.perf == p && b.user in Ids(sections[i].1)
                            && sections[i].0 in Order(st.catalog) && b.slot.key in Order(st.catalog) ==>
               IndexOf(Order(st.catalog), sections[i].0) >= IndexOf(Order(st.catalog), b.slot.key)
    ensures var st' := SaveCast(st, p, PayloadOf(sections), notBooked, now).0;
            GapFree(st'.tables.bookings) && Faithful(st')
  {
    var changes, st' := ChangesOf(st, p, PayloadOf(sections)), SaveCast(st, p, PayloadOf(sections), notBooked, now).0;
    RequestWellFormed(st, p, sections);
    RequestDisjoint(st, p, sections);
    forall i, u, j | 0 <= i <= |changes| && u in UsersIn(changes[..i], 0) && BookingOf(st.tables.bookings, p, u).Some?
                     && i <= j < |changes|
      ensures BookingOf(st.tables.bookings, p, u).value.slot != changes[j].slot
    {
      var n := ListedFrom(changes[..i], 0, u);
      MovesBackChanges(st, p, sections, n, j, u);
    }
    AssumptionsSuffice(st, p, PayloadOf(sections), now);
    SaveShape(st, p, PayloadOf(sections));
    RunBookings(st.tables, changes, now);
    SaveGapFree(st.tables.bookings, changes, p);
    SaveFaithful(st, p, PayloadOf(sections), now);
    assert forall q, u :: Agree(st'.tables, st'.quantities, q, u)
                          <==> Agree(Run(st.tables, changes, now), st.quantities, q, u);
  }
}
