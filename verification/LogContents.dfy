/** What the rows say that a save writes to the log: whom they name, with which fee, and why. */
module LogContents {
  import opened Positions
  import opened Tables
  import opened CastDiff
  import opened BookingLogs
  import opened SaveItem
  import opened ApplyChanges
  import opened CastSave
  import opened Store
  import opened Invariant
  import opened Requests

  // ---- one diff -----------------------------------------------------------------------------

  /** "book" for an entry within the quantity, "unbook" for one beyond it, each with its fee. */
  predicate FromNew(cast: seq<CastEntry>, quantity: nat, t: Transition) {
    exists k :: 0 <= k < |cast| && cast[k] == CastEntry(t.user, t.fee) && (t.kind == Book <==> k < quantity)
  }

  /** "unbook" for an entry of the old list, with the fee it had. */
  predicate FromOld(prior: seq<CastEntry>, t: Transition) {
    t.kind == Unbook && CastEntry(t.user, t.fee) in prior
  }

  lemma {:induction false} DroppedFrom(prior: seq<CastEntry>, newIds: seq<UserId>, x: nat)
    requires x < |Dropped(prior, newIds)|
    ensures FromOld(prior, Dropped(prior, newIds)[x])
  {
    var init := prior[..|prior| - 1];
    assert prior == init + [prior[|prior| - 1]];
    if x < |Dropped(init, newIds)| {
      DroppedFrom(init, newIds, x);
    }
  }

  lemma {:induction false} FlattenFrom<T>(parts: seq<seq<T>>, x: nat) returns (i: nat)
    requires x < |Flatten(parts)|
    ensures i < |parts| && Flatten(parts)[x] in parts[i]
  {
    var init := parts[..|parts| - 1];
    if x < |Flatten(init)| {
      i := FlattenFrom(init, x);
    } else {
      i := |parts| - 1;
      assert Flatten(parts)[x] == parts[i][x - |Flatten(init)|];
    }
  }

  lemma {:induction false} DiffFrom(prior: seq<CastEntry>, cast: seq<CastEntry>, quantity: nat,
                                    oldQuantity: Option<nat>, x: nat)
    requires x < |Diff(prior, cast, quantity, oldQuantity)|
    ensures var t := Diff(prior, cast, quantity, oldQuantity)[x]; FromNew(cast, quantity, t) || FromOld(prior, t)
  {
    var dropped := Dropped(prior, Ids(cast));
    var parts := Judgments(Ids(prior), cast, quantity, Reference(quantity, oldQuantity));
    if x < |dropped| {
      DroppedFrom(prior, Ids(cast), x);
    } else {
      var i := FlattenFrom(parts, x - |dropped|);
      var t: Transition := Flatten(parts)[x - |dropped|];
      assert parts[i] == [t] && cast[i] == CastEntry(t.user, t.fee);
    }
  }

  // ---- one transaction ----------------------------------------------------------------------

  /** The row was written by the change, about an entry of its new list or about a booking it found. */
  ghost predicate WrittenBy(rows: seq<Booking>, c: Change, r: LogRow, x: nat, now: int) {
    && r.id == x && r.created == now && r.notified.None? && r.perf == Some(c.slot.perf) && r.key == c.slot.key
    && r.user.Some?
    && var t := Transition(r.user.value, r.kind, r.fee);
       FromNew(c.Cast(), c.quantity, t)
       || (r.kind == Unbook && exists b :: b in rows && b.slot == c.slot && b.user == t.user && b.fee == t.fee)
  }

  lemma {:induction false} Run1From(rows: seq<Booking>, t: CastTables, c: Change, now: int, x: nat)
    requires |t.logs| <= x < |Run1(t, c, now).logs|
    requires forall e :: e in CastOf(t.bookings, c.slot) ==>
               exists b :: b in rows && b.slot == c.slot && b.user == e.user && b.fee == e.fee
    ensures WrittenBy(rows, c, Run1(t, c, now).logs[x], x, now)
  {
    var prior := CastOf(t.bookings, c.slot);
    Run1IsRecast(t, c, now);
    var ts := Diff(prior, c.Cast(), c.quantity, c.oldQuantity);
    DiffFrom(prior, c.Cast(), c.quantity, c.oldQuantity, x - |t.logs|);
    assert Run1(t, c, now).logs[x] == LogRows(ts, |t.logs|, c.slot, now)[x - |t.logs|];
  }

  lemma {:induction false} Run1Prefix(t: CastTables, c: Change, now: int)
    ensures |t.logs| <= |Run1(t, c, now).logs| && Run1(t, c, now).logs[..|t.logs|] == t.logs
  {
    Run1IsRecast(t, c, now);
  }

  /** Who is found on a position when its turn comes was booked there before the transaction. */
  lemma {:induction false} FoundBefore(rows: seq<Booking>, changes: seq<Change>, p: PerfId, slot: Slot, e: CastEntry)
    requires WellFormed(changes, p) && slot.perf == p && !Touched(changes, slot)
    requires UniqueBookings(rows) && Ordered(rows) && e in CastOf(RunRows(rows, changes), slot)
    ensures exists b :: b in rows && b.slot == slot && b.user == e.user && b.fee == e.fee
  {
    StageCast(rows, changes, p, slot, e.user);
    var kept := WithoutUsers(At(rows, slot), p, UsersIn(changes, 0));
    var i :| 0 <= i < |kept| && Entries(kept)[i] == e;
    assert kept[i] in At(rows, slot);
    var j :| 0 <= j < |At(rows, slot)| && At(rows, slot)[j] == kept[i];
  }

  lemma {:induction false} RunFrom(t: CastTables, changes: seq<Change>, p: PerfId, now: int, x: nat)
    returns (n: nat)
    requires WellFormed(changes, p) && UniqueBookings(t.bookings) && Ordered(t.bookings)
    requires |t.logs| <= x < |Run(t, changes, now).logs|
    ensures n < |changes| && WrittenBy(t.bookings, changes[n], Run(t, changes, now).logs[x], x, now)
  {
    var init, c := Init(changes), Last(changes);
    var before := Run(t, init, now);
    Run1Prefix(before, c, now);
    if x < |before.logs| {
      n := RunFrom(t, init, p, now, x);
      assert Run(t, changes, now).logs[x] == before.logs[x];
    } else {
      n := |changes| - 1;
      RunBookings(t, init, now);
      forall e | e in CastOf(before.bookings, c.slot)
        ensures exists b :: b in t.bookings && b.slot == c.slot && b.user == e.user && b.fee == e.fee
      {
        FoundBefore(t.bookings, init, p, c.slot, e);
      }
      Run1From(t.bookings, before, c, now, x);
    }
  }

  lemma {:induction false} RunPrefix(t: CastTables, changes: seq<Change>, now: int)
    ensures |t.logs| <= |Run(t, changes, now).logs| && Run(t, changes, now).logs[..|t.logs|] == t.logs
  {
    if changes != [] {
      RunPrefix(t, Init(changes), now);
      Run1Prefix(Run(t, Init(changes), now), Last(changes), now);
    }
  }

  // ---- a save -------------------------------------------------------------------------------

  /** A save leaves the log as it was and adds rows about this performance, of this time, each for a reason. */
  lemma {:induction false} SaveLogs(st: State, p: PerfId, sections: seq<Section>, notBooked: seq<UserId>, now: int,
                                    x: nat)
    requires Sound(st) && SaveCast(st, p, PayloadOf(sections), notBooked, now).1 == Done
    ensures var (logs, logs') := (st.tables.logs, SaveCast(st, p, PayloadOf(sections), notBooked, now).0.tables.logs);
            && |logs| <= |logs'|
            && (x < |logs| ==> logs'[x] == logs[x])
            && (|logs| <= x < |logs'| ==>
                  && logs'[x].id == x && logs'[x].created == now && logs'[x].notified.None?
                  && logs'[x].perf == Some(p) && logs'[x].user.Some? && Slot(p, logs'[x].key) in st.quantities
                  && var (r, slot) := (logs'[x], Slot(p, logs'[x].key));
                     || (exists i, k :: && Counts(sections, i) && 0 <= k < |sections[i].1| && sections[i].0 == r.key
                                        && sections[i].1[k] == CastEntry(r.user.value, r.fee)
                                        && (r.kind == Book <==> k < st.quantities[slot]))
                     || (&& r.kind == Unbook
                         && exists b :: && b in st.tables.bookings && b.slot == slot
                                        && b.user == r.user.value && b.fee == r.fee))
  {
    var changes := ChangesOf(st, p, PayloadOf(sections));
    RequestWellFormed(st, p, sections);
    RunPrefix(st.tables, changes, now);
    if |st.tables.logs| <= x < |Run(st.tables, changes, now).logs| {
      var r := Run(st.tables, changes, now).logs[x];
      var n := RunFrom(st.tables, changes, p, now, x);
      WrittenReason(st, p, sections, n, r, x, now);
    }
  }

  lemma {:induction false} WrittenReason(st: State, p: PerfId, sections: seq<Section>, n: nat, r: LogRow, x: nat,
                                         now: int)
    requires n < |ChangesOf(st, p, PayloadOf(sections))|
    requires WrittenBy(st.tables.bookings, ChangesOf(st, p, PayloadOf(sections))[n], r, x, now)
    ensures r.perf == Some(p) && r.user.Some? && Slot(p, r.key) in st.quantities
    ensures var slot := Slot(p, r.key);
            || (exists i, k :: && Counts(sections, i) && 0 <= k < |sections[i].1| && sections[i].0 == r.key
                               && sections[i].1[k] == CastEntry(r.user.value, r.fee)
                               && (r.kind == Book <==> k < st.quantities[slot]))
            || (&& r.kind == Unbook
                && exists b :: && b in st.tables.bookings && b.slot == slot
                               && b.user == r.user.value && b.fee == r.fee)
  {
    var c := ChangesOf(st, p, PayloadOf(sections))[n];
    ChangeOf(st, p, sections, n);
    assert c.slot == Slot(p, r.key);
    var t := Transition(r.user.value, r.kind, r.fee);
    if FromNew(c.Cast(), c.quantity, t) {
      var k :| 0 <= k < |c.Cast()| && c.Cast()[k] == CastEntry(t.user, t.fee) && (t.kind == Book <==> k < c.quantity);
      var i :| Counts(sections, i) && sections[i].0 == c.slot.key;
      assert sections[i].1[k] == CastEntry(t.user, t.fee);
    }
  }
}
