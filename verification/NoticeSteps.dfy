/**
  What the three ways of changing the log do to the notices. Appending a transaction keeps what the job relies on,
  exactly if it does not write about somebody told something at the same time; marking adds at most the latest row to
  what a user was told, and only if the job decided on it; orphaning the rows of a deleted performance leaves the
  others alone.
*/
module NoticeSteps {
  import opened Positions
  import opened Tables
  import opened CastDiff
  import opened BookingLogs
  import opened SaveItem
  import opened ApplyChanges
  import opened Notices

  // ---- appending a transaction --------------------------------------------------------------

  predicate NewRow(r: LogRow, id: nat, now: int) {
    r.id == id && r.created == now && r.notified.None?
  }

  /** b is a with rows of one transaction at time now appended. */
  predicate Extends(a: seq<LogRow>, b: seq<LogRow>, now: int) {
    b == a || (|a| < |b| && NewRow(b[|b| - 1], |b| - 1, now) && Extends(a, b[..|b| - 1], now))
  }

  lemma {:induction false} LoggedExtends(a: seq<LogRow>, b: seq<LogRow>, ts: seq<Transition>, slot: Slot, now: int)
    requires Extends(a, b, now)
    ensures Extends(a, Logged(b, ts, slot, now), now)
  {
    if ts == [] {
      assert Logged(b, ts, slot, now) == b;
    } else {
      var init, c := ts[..|ts| - 1], Logged(b, ts, slot, now);
      assert LogRows(ts, |b|, slot, now)[..|init|] == LogRows(init, |b|, slot, now);
      assert c[..|c| - 1] == Logged(b, init, slot, now);
      LoggedExtends(a, b, init, slot, now);
    }
  }

  lemma {:induction false} Run1Extends(a: seq<LogRow>, t: CastTables, c: Change, now: int)
    requires Extends(a, t.logs, now)
    ensures Extends(a, Run1(t, c, now).logs, now)
  {
    var prior := CastOf(t.bookings, c.slot);
    if c.newCast.None? {
      LoggedExtends(a, t.logs, Span(prior, 0, |prior|, Unbook), c.slot, now);
    } else {
      LoggedExtends(a, t.logs, Diff(prior, c.newCast.value, c.quantity, c.oldQuantity), c.slot, now);
    }
  }

  lemma {:induction false} RunExtends(t: CastTables, changes: seq<Change>, now: int)
    ensures Extends(t.logs, Run(t, changes, now).logs, now)
  {
    if changes != [] {
      RunExtends(t, Init(changes), now);
      Run1Extends(t.logs, Run(t, Init(changes), now), Last(changes), now);
    }
  }

  lemma {:induction false} ExtendsStamped(a: seq<LogRow>, b: seq<LogRow>, before: int, now: int)
    requires Extends(a, b, now) && Stamped(a, before) && before <= now
    ensures Stamped(b, now)
  {
    if b != a {
      ExtendsStamped(a, b[..|b| - 1], before, now);
    } else {
      StampedLater(a, before, now);
    }
  }

  /** Nothing a transaction appends has been told yet; the latest row is the old one or one of its own. */
  lemma {:induction false} ExtendsTold(a: seq<LogRow>, b: seq<LogRow>, now: int, p: PerfId, u: UserId)
    requires Extends(a, b, now)
    ensures Told(b, p, u) == Told(a, p, u)
    ensures LastRow(b, p, u) == LastRow(a, p, u) || (LastRow(b, p, u).Some? && LastRow(b, p, u).value.created == now)
  {
    if b != a {
      var init, r := b[..|b| - 1], b[|b| - 1];
      ExtendsTold(a, init, now, p, u);
      var group := About(init, p, u);
      if r.About(p, u) {
        assert (group + [r])[..|group|] == group;
        assert Notified(group) + [] == Notified(group);
      } else {
        assert group + [] == group;
      }
    }
  }

  lemma {:induction false} NotifiedMember(rows: seq<LogRow>, r: LogRow)
    ensures r in Notified(rows) <==> r in rows && r.notified.Some?
  {
    if rows != [] {
      NotifiedMember(rows[..|rows| - 1], r);
      assert rows == rows[..|rows| - 1] + [rows[|rows| - 1]];
    }
  }

  lemma {:induction false} ExtendsAbout(a: seq<LogRow>, b: seq<LogRow>, now: int, p: PerfId, u: UserId)
    requires Extends(a, b, now)
    ensures |About(a, p, u)| <= |About(b, p, u)|
    ensures |About(a, p, u)| == |About(b, p, u)| ==> LastRow(b, p, u) == LastRow(a, p, u)
    ensures |About(a, p, u)| < |About(b, p, u)| ==>
              LastRow(b, p, u).Some? && LastRow(b, p, u).value.created == now && LastRow(b, p, u).value.notified.None?
  {
    if b != a {
      ExtendsAbout(a, b[..|b| - 1], now, p, u);
    }
  }

  /** If the transaction at time now writes about a user, everything the user was told is from before. */
  predicate TimelyAbout(a: seq<LogRow>, b: seq<LogRow>, now: int, p: PerfId, u: UserId) {
    Adds(a, b, p, u) ==> ToldBefore(a, p, u, now)
  }

  /** b has more rows about the user than a. */
  predicate Adds(a: seq<LogRow>, b: seq<LogRow>, p: PerfId, u: UserId) {
    |About(b, p, u)| > |About(a, p, u)|
  }

  /** Everything the user was told about the performance was written before now. */
  predicate ToldBefore(logs: seq<LogRow>, p: PerfId, u: UserId, now: int) {
    var told := Told(logs, p, u);
    told != [] ==> told[|told| - 1].created < now
  }

  /** Nothing told was written after the latest row of the log. */
  lemma {:induction false} ToldByNow(logs: seq<LogRow>, time: int, now: int, p: PerfId, u: UserId)
    requires Stamped(logs, time) && time < now
    ensures ToldBefore(logs, p, u, now)
  {
    var told := Told(logs, p, u);
    if told != [] {
      NotifiedMember(About(logs, p, u), told[|told| - 1]);
      AboutMember(logs, p, u, told[|told| - 1]);
      var i :| 0 <= i < |logs| && logs[i] == told[|told| - 1];
      StampedAt(logs, time, i);
    }
  }

  /** The exact condition for a transaction to keep what the job relies on. */
  lemma {:induction false} ExtendsNoticesOk(a: seq<LogRow>, b: seq<LogRow>, now: int, p: PerfId, u: UserId)
    requires Extends(a, b, now) && NoticesOk(a, p, u)
    ensures NoticesOk(b, p, u) <==> TimelyAbout(a, b, now, p, u)
  {
    ExtendsTold(a, b, now, p, u);
    ExtendsAbout(a, b, now, p, u);
    if Told(a, p, u) != [] {
      NotifiedMember(About(a, p, u), Told(a, p, u)[|Told(a, p, u)| - 1]);
    }
  }

  // ---- marking ------------------------------------------------------------------------------

  lemma {:induction false} MarkedAbout(logs: seq<LogRow>, ids: set<nat>, now: int, p: PerfId, u: UserId)
    ensures About(Marked(logs, ids, now), p, u) == Marked(About(logs, p, u), ids, now)
  {
    if logs != [] {
      var n := |logs| - 1;
      var init, group := Marked(logs[..n], ids, now), About(logs[..n], p, u);
      MarkedAbout(logs[..n], ids, now, p, u);
      assert Marked(logs, ids, now)[..n] == init;
      if logs[n].About(p, u) {
        assert (group + [logs[n]])[..|group|] == group;
      } else {
        assert group + [] == group;
      }
    }
  }

  lemma {:induction false} MarkedNone(rows: seq<LogRow>, ids: set<nat>, now: int)
    requires forall r :: r in rows ==> r.id !in ids
    ensures Marked(rows, ids, now) == rows
  {
    forall i | 0 <= i < |rows| ensures Marked(rows, ids, now)[i] == rows[i] {
      assert rows[i] in rows;
    }
  }

  lemma {:induction false} MarkedStamped(logs: seq<LogRow>, ids: set<nat>, now: int, time: int)
    requires Stamped(logs, time)
    ensures Stamped(Marked(logs, ids, now), time)
  {
    if logs != [] {
      MarkedStamped(logs[..|logs| - 1], ids, now, logs[|logs| - 1].created);
      assert Marked(logs, ids, now)[..|logs| - 1] == Marked(logs[..|logs| - 1], ids, now);
    }
  }

  /** The rows marked about (p, u) are at most the one the job decided on. */
  ghost predicate MarksDecided(logs: seq<LogRow>, ids: set<nat>, p: PerfId, u: UserId) {
    forall r :: r in About(logs, p, u) && r.id in ids ==> Decision(logs, p, u) == Some(r)
  }

  /** This job marks the latest row about (p, u). */
  predicate MarksLatest(logs: seq<LogRow>, ids: set<nat>, p: PerfId, u: UserId) {
    LastRow(logs, p, u).Some? && LastRow(logs, p, u).value.id in ids
  }

  /** The job only ever decides on the latest row. */
  lemma {:induction false} DecisionLatest(logs: seq<LogRow>, p: PerfId, u: UserId)
    ensures Decision(logs, p, u).Some? ==> Decision(logs, p, u) == LastRow(logs, p, u)
  {
    AboutLast(logs, p, u);
  }

  lemma {:induction false} MarkedGroup(logs: seq<LogRow>, time: int, ids: set<nat>, now: int, p: PerfId, u: UserId)
    requires Stamped(logs, time) && MarksDecided(logs, ids, p, u)
    ensures var (group, group') := (About(logs, p, u), About(Marked(logs, ids, now), p, u));
            if MarksLatest(logs, ids, p, u)
            then group != [] && Decision(logs, p, u) == LastRow(logs, p, u)
                 && group' == group[..|group| - 1] + [group[|group| - 1].(notified := Some(now))]
            else group' == group
  {
    var group := About(logs, p, u);
    MarkedAbout(logs, ids, now, p, u);
    AboutLast(logs, p, u);
    if MarksLatest(logs, ids, p, u) {
      var init, last := group[..|group| - 1], group[|group| - 1];
      AboutIncreasing(logs, time, p, u);
      forall r | r in init ensures r.id !in ids {
        var i :| 0 <= i < |init| && init[i] == r;
        IncreasingBelow(group, i);
        assert r in group;
      }
      MarkedNone(init, ids, now);
    } else {
      forall r | r in group ensures r.id !in ids {
      }
      MarkedNone(group, ids, now);
    }
  }

  /** The effect of the job on one user and performance: at most one notice, of the latest row. */
  lemma {:induction false} MarkedTold(logs: seq<LogRow>, time: int, ids: set<nat>, now: int, p: PerfId, u: UserId)
    requires Stamped(logs, time) && MarksDecided(logs, ids, p, u)
    ensures var logs' := Marked(logs, ids, now);
            if MarksLatest(logs, ids, p, u)
            then && Decision(logs, p, u) == LastRow(logs, p, u)
                 && var latest := LastRow(logs, p, u).value.(notified := Some(now));
                    LastRow(logs', p, u) == Some(latest) && Told(logs', p, u) == Told(logs, p, u) + [latest]
            else LastRow(logs', p, u) == LastRow(logs, p, u) && Told(logs', p, u) == Told(logs, p, u)
  {
    var group := About(logs, p, u);
    MarkedGroup(logs, time, ids, now, p, u);
    AboutLast(logs, p, u);
    AboutLast(Marked(logs, ids, now), p, u);
    if MarksLatest(logs, ids, p, u) {
      var init, latest := group[..|group| - 1], group[|group| - 1].(notified := Some(now));
      assert (init + [latest])[..|init|] == init;
      assert Notified(group) == Notified(init) + [];
    }
  }

  /** Once everything decided is marked, nothing is left to decide. */
  lemma {:induction false} MarkedDecision(logs: seq<LogRow>, time: int, ids: set<nat>, now: int, p: PerfId, u: UserId)
    requires Stamped(logs, time) && MarksDecided(logs, ids, p, u)
    ensures Decision(Marked(logs, ids, now), p, u)
            == if MarksLatest(logs, ids, p, u) then None else Decision(logs, p, u)
  {
    MarkedGroup(logs, time, ids, now, p, u);
  }

  lemma {:induction false} AlternatesSnoc(told: seq<LogRow>, latest: LogRow)
    requires Alternates(told) && TimesApart(told)
    requires latest.kind != if told == [] then Unbook else told[|told| - 1].kind
    requires told != [] ==> told[|told| - 1].created < latest.created
    ensures Alternates(told + [latest]) && TimesApart(told + [latest])
  {
    assert (told + [latest])[..|told|] == told;
  }

  /** Marking says nothing new about who is booked. */
  lemma {:induction false} MarkedLoggedIn(logs: seq<LogRow>, time: int, ids: set<nat>, now: int, p: PerfId, u: UserId)
    requires Stamped(logs, time) && MarksDecided(logs, ids, p, u)
    ensures LoggedIn(Marked(logs, ids, now), p, u) <==> LoggedIn(logs, p, u)
  {
    MarkedTold(logs, time, ids, now, p, u);
  }

  /** The notices keep alternating, and keep their order in time. */
  lemma {:induction false} MarkedNoticesOk(logs: seq<LogRow>, time: int, ids: set<nat>, now: int, p: PerfId, u: UserId)
    requires Stamped(logs, time) && MarksDecided(logs, ids, p, u) && NoticesOk(logs, p, u)
    ensures NoticesOk(Marked(logs, ids, now), p, u)
  {
    MarkedTold(logs, time, ids, now, p, u);
    DecisionDue(logs, p, u);
    if MarksLatest(logs, ids, p, u) {
      var told, latest := Told(logs, p, u), LastRow(logs, p, u).value.(notified := Some(now));
      AlternatesSnoc(told, latest);
    }
  }

  /** Who is not due a notice has been told the truth, as the log has it. */
  lemma {:induction false} NotDueToldRight(logs: seq<LogRow>, p: PerfId, u: UserId)
    requires !Due(logs, p, u)
    ensures ToldBooked(logs, p, u) <==> LoggedIn(logs, p, u)
  {
    var group := About(logs, p, u);
    AboutLast(logs, p, u);
    if group != [] && group[|group| - 1].notified.Some? {
      assert Notified(group) == Notified(group[..|group| - 1]) + [group[|group| - 1]];
    }
  }

  /** A user who was due and got the notice is not due any more. */
  lemma {:induction false} MarkedNotDue(logs: seq<LogRow>, time: int, ids: set<nat>, now: int, p: PerfId, u: UserId)
    requires Stamped(logs, time) && MarksDecided(logs, ids, p, u)
    requires Due(logs, p, u) ==> MarksLatest(logs, ids, p, u)
    ensures !Due(Marked(logs, ids, now), p, u)
    ensures ToldBooked(Marked(logs, ids, now), p, u) <==> LoggedIn(logs, p, u)
  {
    MarkedTold(logs, time, ids, now, p, u);
    NotDueToldRight(Marked(logs, ids, now), p, u);
  }

  // ---- orphaning ----------------------------------------------------------------------------

  /** ON DELETE SET NULL on performance_id. */
  function Orphaned(logs: seq<LogRow>, p: PerfId): (r: seq<LogRow>)
    ensures |r| == |logs|
  {
    if logs == [] then []
    else
      var last := logs[|logs| - 1];
      Orphaned(logs[..|logs| - 1], p) + [if last.perf == Some(p) then last.(perf := None) else last]
  }

  lemma {:induction false} OrphanedAbout(logs: seq<LogRow>, gone: PerfId, p: PerfId, u: UserId)
    ensures About(Orphaned(logs, gone), p, u) == if p == gone then [] else About(logs, p, u)
  {
    if logs != [] {
      OrphanedAbout(logs[..|logs| - 1], gone, p, u);
      assert Orphaned(logs, gone)[..|logs| - 1] == Orphaned(logs[..|logs| - 1], gone);
    }
  }

  lemma {:induction false} OrphanedStamped(logs: seq<LogRow>, gone: PerfId, time: int)
    requires Stamped(logs, time)
    ensures Stamped(Orphaned(logs, gone), time)
  {
    if logs != [] {
      OrphanedStamped(logs[..|logs| - 1], gone, logs[|logs| - 1].created);
      assert Orphaned(logs, gone)[..|logs| - 1] == Orphaned(logs[..|logs| - 1], gone);
    }
  }

  lemma {:induction false} OrphanedNoticesOk(logs: seq<LogRow>, gone: PerfId, p: PerfId, u: UserId)
    ensures NoticesOk(logs, p, u) ==> NoticesOk(Orphaned(logs, gone), p, u)
    ensures LoggedIn(Orphaned(logs, gone), p, u) <==> p != gone && LoggedIn(logs, p, u)
  {
    OrphanedAbout(logs, gone, p, u);
    AboutLast(logs, p, u);
    AboutLast(Orphaned(logs, gone), p, u);
  }
}
