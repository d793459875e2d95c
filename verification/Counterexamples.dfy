/**
  Concrete inputs that show what each assumption is needed for, on tables written out row by row: a payload that lists a
  user twice and leaves a gap in the orders; a payload without repetition that moves a user to a position processed
  earlier, so that a standby moves up without a row in the log; and a log with rows of equal time, on which the job
  takes the wrong notice for the last one. Module Histories reaches the same inputs step by step.
*/
module Counterexamples {
  import opened Positions
  import opened Tables
  import opened CastDiff
  import opened BookingLogs
  import opened SaveItem
  import opened ApplyChanges
  import opened CastSave
  import opened Notices

  const FIRST := PositionKey(Instruments, 1)
  const SECOND := PositionKey(Voices, 1)

  function One(u: UserId): seq<CastEntry> {
    [CastEntry(u, 0)]
  }

  function Two(u: UserId, v: UserId): seq<CastEntry> {
    [CastEntry(u, 0), CastEntry(v, 0)]
  }

  lemma {:induction false} OneIds(u: UserId)
    ensures Ids(One(u)) == [u] && NoDup([u]) && UsersOf(One(u)) == {u}
  {
    assert [u][..0] == [];
  }

  lemma {:induction false} TwoIds(u: UserId, v: UserId)
    requires u != v
    ensures Ids(Two(u, v)) == [u, v] && NoDup([u, v]) && UsersOf(Two(u, v)) == {u, v}
    ensures IndexOf([u, v], u) == 0 && IndexOf([u, v], v) == 1
  {
    assert [u, v][..1] == [u] && [u][..0] == [];
    assert Ids(Two(u, v)) == [u, v];
    assert [u, v][0] == u && [u, v][1] == v;
  }

  lemma {:induction false} TwoWithoutFirst(a: Booking, b: Booking, p: PerfId, us: set<UserId>)
    requires Hit(a, p, us) && !Hit(b, p, us)
    ensures WithoutUsers([a, b], p, us) == [b]
  {
    assert [a, b][..1] == [a] && [a][..0] == [];
    assert WithoutUsers([a], p, us) == [];
  }

  /** Both positions exist once; the first one is processed first. */
  function Quantities1(p: PerfId): Quantities {
    map[Slot(p, FIRST) := 1, Slot(p, SECOND) := 1]
  }

  function Save(p: PerfId, first: seq<CastEntry>, second: seq<CastEntry>): seq<Change> {
    [Change(Slot(p, FIRST), 1, Some(first), None), Change(Slot(p, SECOND), 1, Some(second), None)]
  }

  lemma {:induction false} SaveIsSaveChanges(p: PerfId, first: seq<CastEntry>, second: seq<CastEntry>)
    ensures Save(p, first, second)
            == SaveChanges(p, [SetupItem(FIRST, 1), SetupItem(SECOND, 1)], map[FIRST := first, SECOND := second])
  {
  }

  lemma {:induction false} SaveParts(p: PerfId, first: seq<CastEntry>, second: seq<CastEntry>)
    ensures var changes := Save(p, first, second);
            && Init(changes) == [changes[0]] && Init([changes[0]]) == []
            && UsersIn(changes[..0], 0) == {} && UsersIn(changes[..1], 0) == UsersOf(first)
            && UsersIn(changes, 1) == UsersOf(second) && UsersIn(changes, 2) == {}
            && Referenced(Quantities1(p), changes) && RunQuantities(Quantities1(p), changes) == Quantities1(p)
  {
    var changes, qs := Save(p, first, second), Quantities1(p);
    assert changes[..1] == [changes[0]] == Init(changes);
    assert Last(changes) == changes[1] && Last([changes[0]]) == changes[0];
    assert qs[Slot(p, FIRST) := 1] == qs && qs[Slot(p, SECOND) := 1] == qs;
    assert RunQuantities(qs, []) == qs && RunQuantities(qs, [changes[0]]) == qs;
  }

  lemma {:induction false} SaveWellFormed(p: PerfId, first: seq<CastEntry>, second: seq<CastEntry>)
    requires NoDup(Ids(first)) && NoDup(Ids(second))
    ensures WellFormed(Save(p, first, second), p)
  {
    var changes := Save(p, first, second);
    SaveParts(p, first, second);
    assert WellFormed([], p) && WellFormed([changes[0]], p);
    assert !Touched([changes[0]], Slot(p, SECOND));
  }

  /**
    A user listed first on one position and alone on the next: the first position keeps its second entry under
    order 1, with nobody at order 0.
  */
  lemma {:induction false} DoubleListingLeavesGap(p: PerfId, u: UserId, v: UserId)
    requires u != v
    ensures var changes := Save(p, Two(u, v), One(u));
            && WellFormed(changes, p) && !LeavesNoGap(changes)
            && At(RunRows([], changes), Slot(p, FIRST)) == [Booking(Slot(p, FIRST), v, 1, 0)]
  {
    var changes, slot := Save(p, Two(u, v), One(u)), Slot(p, FIRST);
    OneIds(u);
    TwoIds(u, v);
    SaveParts(p, Two(u, v), One(u));
    SaveWellFormed(p, Two(u, v), One(u));
    RunAtChanged([], changes, p, 0);
    assert changes[0].Cast() == Two(u, v) && !TailTaken(Two(u, v), {u}) by {
      assert Two(u, v)[0].user == u && Two(u, v)[1].user == v;
    }
    TwoWithoutFirst(Booking(slot, u, 0, 0), Booking(slot, v, 1, 0), p, {u});
    assert NewRows(slot, Two(u, v)) == [Booking(slot, u, 0, 0), Booking(slot, v, 1, 0)];
  }

  function Rows(p: PerfId, u: UserId, v: UserId): seq<Booking> {
    NewRows(Slot(p, SECOND), Two(u, v))
  }

  lemma {:induction false} RowsFacts(p: PerfId, u: UserId, v: UserId)
    requires u != v
    ensures var (rows, slot) := (Rows(p, u, v), Slot(p, SECOND));
            && rows == [Booking(slot, u, 0, 0), Booking(slot, v, 1, 0)] && At(rows, slot) == rows
            && UniqueBookings(rows) && GapFree(rows) && Ordered(rows)
            && BookingOf(rows, p, u) == Some(rows[0]) && BookingOf(rows, p, v) == Some(rows[1])
  {
    var rows, slot := Rows(p, u, v), Slot(p, SECOND);
    TwoIds(u, v);
    UniqueConcat([], slot, Two(u, v));
    assert [] + rows == rows;
    NewRowsContiguous(slot, Two(u, v));
    forall s ensures Contiguous(At(rows, s)) {
      AtUniform(rows, slot, s);
    }
    GapFreeOrdered(rows);
    AtUniform(rows, slot, slot);
    BookingOfUnique(rows, rows[0]);
    BookingOfUnique(rows, rows[1]);
  }

  lemma {:induction false} MoveIsSilent(p: PerfId, u: UserId, v: UserId)
    requires u != v
    ensures SilentPromotion(Rows(p, u, v), Quantities1(p), Save(p, One(u), One(v)), p, 1, v)
  {
    var changes := Save(p, One(u), One(v));
    RowsFacts(p, u, v);
    OneIds(u);
    OneIds(v);
    SaveParts(p, One(u), One(v));
    assert RegularIn([v], 1, v);
    MoveCompacts(p, u, v);
    assert changes[1].Cast() == One(v) && QuantityAt(Quantities1(p), changes[1].slot) == 1;
  }

  /** With u gone, v comes first on the later position. */
  lemma {:induction false} MoveCompacts(p: PerfId, u: UserId, v: UserId)
    requires u != v
    ensures Ids(Entries(WithoutUsers(At(Rows(p, u, v), Slot(p, SECOND)), p, {u}))) == [v]
  {
    var slot := Slot(p, SECOND);
    RowsFacts(p, u, v);
    TwoWithoutFirst(Booking(slot, u, 0, 0), Booking(slot, v, 1, 0), p, {u});
  }

  lemma {:induction false} MoveIsBackward(p: PerfId, u: UserId, v: UserId)
    requires u != v
    ensures Disjoint(Save(p, One(u), One(v))) && !NoBackwardMove(Rows(p, u, v), Save(p, One(u), One(v)), p)
  {
    var changes := Save(p, One(u), One(v));
    RowsFacts(p, u, v);
    OneIds(u);
    OneIds(v);
    SaveParts(p, One(u), One(v));
    assert NoneTaken(changes[0].Cast(), UsersIn(changes, 1)) && NoneTaken(changes[1].Cast(), UsersIn(changes, 2));
    assert u in UsersIn(changes[..1], 0) && BookingOf(Rows(p, u, v), p, u).value.slot == changes[1].slot;
  }

  /**
    A disjoint payload that moves the regular user of the later position to the earlier one, and so promotes the
    standby there: afterwards the bookings have it regular, and the log, faithful before, never says so.
  */
  lemma {:induction false} BackwardMoveIsSilent(p: PerfId, u: UserId, v: UserId, logs: seq<LogRow>, now: int)
    requires u != v && Agree(CastTables(Rows(p, u, v), logs), Quantities1(p), p, v)
    ensures var changes := Save(p, One(u), One(v));
            var after := Run(CastTables(Rows(p, u, v), logs), changes, now);
            && WellFormed(changes, p) && Disjoint(changes) && !NoBackwardMove(Rows(p, u, v), changes, p)
            && Regular(after.bookings, Quantities1(p), p, v) && !LoggedIn(after.logs, p, v)
  {
    var rows, changes, qs := Rows(p, u, v), Save(p, One(u), One(v)), Quantities1(p);
    RowsFacts(p, u, v);
    MoveIsBackward(p, u, v);
    MoveIsSilent(p, u, v);
    OneIds(u);
    OneIds(v);
    SaveParts(p, One(u), One(v));
    SaveWellFormed(p, One(u), One(v));
    SilentlyPromotedIff(rows, qs, changes, p, v);
    RunAgree(CastTables(rows, logs), qs, changes, now, p, v);
    RunBookings(CastTables(rows, logs), changes, now);
    RunBookingListed(rows, changes, p, 1, v);
  }

  // ---- transaction times --------------------------------------------------------------------

  function Notice(id: nat, p: PerfId, u: UserId, kind: LogType, time: int, told: bool): LogRow {
    LogRow(id, Some(p), Some(u), kind, FIRST, 0, time, if told then Some(time) else None)
  }

  /** Told "booked" and "not booked" at the same time, and booked again a moment later. */
  function TiedRows(p: PerfId, u: UserId, time: int): seq<LogRow> {
    [Notice(0, p, u, Book, time, true), Notice(1, p, u, Unbook, time, true), Notice(2, p, u, Book, time + 1, false)]
  }

  /**
    The job finds the last notice by time alone, the first among equals: here it takes the earlier notice for the last
    one, and stays silent although the user is due a notice.
  */
  lemma {:induction false} EqualTimesMislead(p: PerfId, u: UserId, time: int)
    ensures var rows := TiedRows(p, u, time);
            && Stamped(rows, time + 1) && About(rows, p, u) == rows && Told(rows, p, u) == rows[..2]
            && Due(rows, p, u) && !LastNoticeFound(rows, p, u) && Decision(rows, p, u) == None
  {
    var rows := TiedRows(p, u, time);
    var a, b, c := rows[0], rows[1], rows[2];
    assert rows[..2] == [a, b] && [a, b][..1] == [a] && [a][..0] == [];
    assert Stamped([], time) && Stamped([a], time) && Stamped([a, b], time);
    assert About([a], p, u) == [a] && About([a, b], p, u) == [a, b] && About(rows, p, u) == rows;
    assert Notified([a]) == [a] && Notified([a, b]) == [a, b] && Notified(rows) == [a, b] + [];
    assert FirstLatest([a]) == a && FirstLatest([a, b]) == a;
  }
}
