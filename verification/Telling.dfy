/** Who is told what by the booking-status job, row by row of the log: nothing is left to the names used elsewhere. */
module Telling {
  import opened Positions
  import opened Tables
  import opened CastDiff
  import opened BookingLogs
  import opened SaveItem
  import opened Notices
  import opened NoticeSteps
  import opened Store
  import opened Invariant
  import opened Preservation

  /** Row i is about the user and the performance. */
  predicate Concerns(logs: seq<LogRow>, i: int, p: PerfId, u: UserId) {
    0 <= i < |logs| && logs[i].perf == Some(p) && logs[i].user == Some(u)
  }

  /** Row i is the latest about the user and the performance. */
  ghost predicate Latest(logs: seq<LogRow>, i: int, p: PerfId, u: UserId) {
    Concerns(logs, i, p, u) && forall j :: i < j < |logs| ==> !Concerns(logs, j, p, u)
  }

  /** Row i is the latest of them that was told. */
  ghost predicate LastTold(logs: seq<LogRow>, i: int, p: PerfId, u: UserId) {
    && Concerns(logs, i, p, u) && logs[i].notified.Some?
    && forall j :: i < j < |logs| && Concerns(logs, j, p, u) ==> logs[j].notified.None?
  }

  // ---- the words used elsewhere -------------------------------------------------------------

  lemma {:induction false} LatestIs(logs: seq<LogRow>, p: PerfId, u: UserId)
    ensures forall i :: Latest(logs, i, p, u) ==> LastRow(logs, p, u) == Some(logs[i])
    ensures LastRow(logs, p, u).Some? ==> exists i :: Latest(logs, i, p, u) && LastRow(logs, p, u) == Some(logs[i])
  {
    if logs != [] {
      var init, n := logs[..|logs| - 1], |logs| - 1;
      LatestIs(init, p, u);
      assert forall i :: 0 <= i < n ==> (Concerns(init, i, p, u) <==> Concerns(logs, i, p, u));
      if Concerns(logs, n, p, u) {
        assert Latest(logs, n, p, u);
      } else {
        assert forall i :: Latest(logs, i, p, u) <==> Latest(init, i, p, u);
      }
    }
  }

  lemma {:induction false} ToldAt(logs: seq<LogRow>, p: PerfId, u: UserId, i: nat)
    requires LastTold(logs, i, p, u)
    ensures Told(logs, p, u) != [] && Told(logs, p, u)[|Told(logs, p, u)| - 1] == logs[i]
  {
    var init, n := logs[..|logs| - 1], |logs| - 1;
    ToldSnoc(logs, p, u);
    if i < n {
      forall j | i <= j < n ensures Concerns(init, j, p, u) <==> Concerns(logs, j, p, u) {
        assert init[j] == logs[j];
      }
      assert Concerns(logs, n, p, u) ==> logs[n].notified.None?;
      ToldAt(init, p, u, i);
    }
  }

  lemma {:induction false} SomeTold(logs: seq<LogRow>, p: PerfId, u: UserId) returns (i: nat)
    requires Told(logs, p, u) != []
    ensures LastTold(logs, i, p, u) && Told(logs, p, u)[|Told(logs, p, u)| - 1] == logs[i]
  {
    var init, n := logs[..|logs| - 1], |logs| - 1;
    ToldSnoc(logs, p, u);
    if Concerns(logs, n, p, u) && logs[n].notified.Some? {
      i := n;
    } else {
      i := SomeTold(init, p, u);
      forall j | i <= j < n ensures Concerns(init, j, p, u) <==> Concerns(logs, j, p, u) {
        assert init[j] == logs[j];
      }
    }
  }

  lemma {:induction false} ToldSnoc(logs: seq<LogRow>, p: PerfId, u: UserId)
    requires logs != []
    ensures var (init, r) := (logs[..|logs| - 1], logs[|logs| - 1]);
            Told(logs, p, u) == Told(init, p, u) + (if r.About(p, u) && r.notified.Some? then [r] else [])
  {
    var init, r := logs[..|logs| - 1], logs[|logs| - 1];
    var group := About(init, p, u);
    if r.About(p, u) {
      assert (group + [r])[..|group|] == group;
    } else {
      assert group + [] == group;
    }
  }

  /** "The log says booked": the latest row about the user is a "book". */
  lemma {:induction false} LoggedInMeans(logs: seq<LogRow>, p: PerfId, u: UserId)
    ensures LoggedIn(logs, p, u) <==> exists i :: Latest(logs, i, p, u) && logs[i].kind == Book
  {
    LatestIs(logs, p, u);
  }

  /** "Told booked": the latest row the user was told about is a "book". */
  lemma {:induction false} ToldBookedMeans(logs: seq<LogRow>, p: PerfId, u: UserId)
    ensures ToldBooked(logs, p, u) <==> exists i :: LastTold(logs, i, p, u) && logs[i].kind == Book
  {
    if i :| LastTold(logs, i, p, u) && logs[i].kind == Book {
      ToldAt(logs, p, u, i);
    }
    if Told(logs, p, u) != [] {
      var i := SomeTold(logs, p, u);
    }
  }

  /** "Regular": some booking row of the user has an order below the quantity stored for its position. */
  lemma {:induction false} RegularMeans(rows: seq<Booking>, qs: Quantities, p: PerfId, u: UserId)
    requires UniqueBookings(rows)
    ensures Regular(rows, qs, p, u)
            <==> exists b :: && b in rows && b.slot.perf == p && b.user == u
                             && b.slot in qs && b.order < qs[b.slot]
  {
    forall b | b in rows && b.slot.perf == p && b.user == u ensures BookingOf(rows, p, u) == Some(b) {
      BookingOfUnique(rows, b);
    }
  }

  // ---- the job, row by row ------------------------------------------------------------------

  /** The last thing told, if any, is another than this row says; and the first thing told is "booked". */
  ghost predicate News(logs: seq<LogRow>, i: int, p: PerfId, u: UserId)
    requires 0 <= i < |logs|
  {
    && (forall k :: LastTold(logs, k, p, u) ==> logs[k].kind != logs[i].kind)
    && ((forall k :: Concerns(logs, k, p, u) ==> logs[k].notified.None?) ==> logs[i].kind == Book)
  }

  lemma {:induction false} NewsMeans(logs: seq<LogRow>, i: nat, p: PerfId, u: UserId)
    requires i < |logs|
    ensures var told := Told(logs, p, u);
            News(logs, i, p, u) <==> logs[i].kind != if told == [] then Unbook else told[|told| - 1].kind
  {
    if Told(logs, p, u) == [] {
      NoneTold(logs, p, u);
      assert forall k :: !LastTold(logs, k, p, u);
    } else {
      var k := SomeTold(logs, p, u);
      forall l | LastTold(logs, l, p, u) ensures logs[l] == logs[k] {
        ToldAt(logs, p, u, l);
      }
    }
  }

  lemma {:induction false} DueMeans(logs: seq<LogRow>, i: nat, p: PerfId, u: UserId)
    requires Latest(logs, i, p, u)
    ensures Due(logs, p, u) <==> logs[i].notified.None? && News(logs, i, p, u)
  {
    LatestIs(logs, p, u);
    NewsMeans(logs, i, p, u);
  }

  lemma {:induction false} NoneTold(logs: seq<LogRow>, p: PerfId, u: UserId)
    requires Told(logs, p, u) == []
    ensures forall k :: Concerns(logs, k, p, u) ==> logs[k].notified.None?
  {
    if logs != [] {
      var init, n := logs[..|logs| - 1], |logs| - 1;
      ToldSnoc(logs, p, u);
      NoneTold(init, p, u);
      assert forall k :: 0 <= k < n ==> (Concerns(init, k, p, u) <==> Concerns(logs, k, p, u));
    }
  }

  /** Among rows with ids in sequence, equal rows are the same row. */
  lemma {:induction false} SamePlace(logs: seq<LogRow>, now: int, i: nat, j: nat)
    requires Stamped(logs, now) && i < |logs| && j < |logs| && logs[i] == logs[j]
    ensures i == j
  {
    StampedAt(logs, now, i);
    StampedAt(logs, now, j);
  }

  /**
    The job tells the user about row i, and marks it, exactly if the performance is still to come, the user has a
    verified address, and the row is the latest about both, was not told yet and is news to the user.
  */
  lemma {:induction false} NotifyRow(st: State, now: int, i: nat)
    requires Stamped(st.tables.logs, st.now) && NoticesSound(st.tables.logs) && i < |st.tables.logs|
    ensures |Notify(st, now).tables.logs| == |st.tables.logs|
    ensures var (logs, r) := (st.tables.logs, st.tables.logs[i]);
            Notify(st, now).tables.logs[i]
            == if && r.perf.Some? && r.user.Some?
                  && r.perf.value in st.schedule && st.schedule[r.perf.value] > now
                  && r.user.value in st.verified && st.verified[r.user.value]
                  && Latest(logs, i, r.perf.value, r.user.value) && r.notified.None?
                  && News(logs, i, r.perf.value, r.user.value)
               then r.(notified := Some(now)) else r
  {
    var logs, r := st.tables.logs, st.tables.logs[i];
    if r.perf.Some? && r.user.Some? {
      var p, u := r.perf.value, r.user.value;
      assert NoticesOk(logs, p, u);
      DecisionDue(logs, p, u);
      LatestIs(logs, p, u);
      if Latest(logs, i, p, u) {
        DueMeans(logs, i, p, u);
      } else {
        NotLatestNotDecided(logs, st.now, i, p, u);
      }
    }
    MarkedIffMarks(st, now, i);
  }

  lemma {:induction false} NotLatestNotDecided(logs: seq<LogRow>, time: int, i: nat, p: PerfId, u: UserId)
    requires Stamped(logs, time) && Concerns(logs, i, p, u) && !Latest(logs, i, p, u)
    ensures Decision(logs, p, u) != Some(logs[i])
  {
    DecisionLatest(logs, p, u);
    LatestIs(logs, p, u);
    if Decision(logs, p, u) == Some(logs[i]) {
      var j :| Latest(logs, j, p, u) && LastRow(logs, p, u) == Some(logs[j]);
      SamePlace(logs, time, i, j);
    }
  }

  lemma {:induction false} MarkedIffMarks(st: State, now: int, i: nat)
    requires Stamped(st.tables.logs, st.now) && i < |st.tables.logs|
    ensures st.tables.logs[i].id in MarkedIds(st, now) <==> Marks(st, st.tables.logs[i], now)
  {
    if r :| r in st.tables.logs && Marks(st, r, now) && r.id == st.tables.logs[i].id {
      SameId(st.tables.logs, st.now, r, st.tables.logs[i]);
    }
  }

  /** Whatever the state: only rows about performances still to come and users with a verified address are marked. */
  lemma {:induction false} NotifyOnly(st: State, now: int, i: nat)
    requires Stamped(st.tables.logs, st.now) && i < |st.tables.logs|
    ensures |Notify(st, now).tables.logs| == |st.tables.logs|
    ensures var (r, r') := (st.tables.logs[i], Notify(st, now).tables.logs[i]);
            r' != r ==>
              && r' == r.(notified := Some(now)) && r.notified.None?
              && r.perf.Some? && r.perf.value in st.schedule && st.schedule[r.perf.value] > now
              && r.user.Some? && r.user.value in st.verified && st.verified[r.user.value]
  {
    MarkedIffMarks(st, now, i);
  }

  /** The job changes nothing but the marks and the time. */
  lemma {:induction false} NotifyElse(st: State, now: int)
    ensures var st' := Notify(st, now);
            st' == st.(now := now, tables := st.tables.(logs := st'.tables.logs))
  {
  }
}
