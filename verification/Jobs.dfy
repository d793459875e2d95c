/**
  The booking-status job: grouping the log rows as they arrive, deciding per user and performance, grouping by user.
*/
module Jobs {
  import opened Positions
  import opened Tables
  import opened BookingLogs
  import opened Notices
  import opened NoticeSteps
  import opened Store

  type Pair = (PerfId, UserId)

  /** The rows of upcoming performances. */
  function UpcomingRows(st: State, logs: seq<LogRow>, now: int): seq<LogRow> {
    if logs == [] then []
    else
      var last := logs[|logs| - 1];
      UpcomingRows(st, logs[..|logs| - 1], now)
        + (if last.perf.Some? && Upcoming(st, last.perf.value, now) then [last] else [])
  }

  /** The query has no ORDER BY: the rows arrive in any order that keeps rows of equal time in sequence. */
  ghost predicate Arrives(arrival: seq<LogRow>, st: State, now: int) {
    multiset(arrival) == multiset(UpcomingRows(st, st.tables.logs, now)) && TiesInOrder(arrival)
  }

  // ---- grouping by performance and user -----------------------------------------------------

  function Group(groups: map<Pair, seq<LogRow>>, key: Pair): seq<LogRow> {
    if key in groups then groups[key] else []
  }

  ghost predicate Grouped(groups: map<Pair, seq<LogRow>>, rows: seq<LogRow>) {
    && (forall key :: Group(groups, key) == About(rows, key.0, key.1))
    && (forall key :: key in groups ==> groups[key] != [])
  }

  lemma {:induction false} GroupedStep(groups: map<Pair, seq<LogRow>>, rows: seq<LogRow>, r: LogRow)
    requires Grouped(groups, rows)
    ensures if r.perf.None? || r.user.None? then Grouped(groups, rows + [r])
            else var key := (r.perf.value, r.user.value); Grouped(groups[key := Group(groups, key) + [r]], rows + [r])
  {
    forall key: Pair ensures About(rows + [r], key.0, key.1) == About(rows, key.0, key.1)
      + (if r.About(key.0, key.1) then [r] else []) {
    }
  }

  method GroupRows(rows: seq<LogRow>) returns (groups: map<Pair, seq<LogRow>>)
    ensures Grouped(groups, rows)
  {
    groups := map[];
    for i := 0 to |rows|
      invariant Grouped(groups, rows[..i])
    {
      var r := rows[i];
      assert rows[..i + 1] == rows[..i] + [r];
      GroupedStep(groups, rows[..i], r);
      if r.perf.Some? && r.user.Some? {
        var key := (r.perf.value, r.user.value);
        groups := groups[key := Group(groups, key) + [r]];
      }
    }
    assert rows[..|rows|] == rows;
  }

  /** What the decision is for one pair, among the rows given. */
  function DecisionAbout(rows: seq<LogRow>, p: PerfId, u: UserId): Option<LogRow> {
    var group := About(rows, p, u);
    SortMultiset(group);
    if group == [] then None else Decide(group)
  }

  method LatestUnnotifiedEntries(rows: seq<LogRow>) returns (result: map<Pair, LogRow>)
    ensures forall key :: (if key in result then Some(result[key]) else None) == DecisionAbout(rows, key.0, key.1)
  {
    var groups := GroupRows(rows);
    result := map[];
    var rest := groups.Keys;
    while rest != {}
      invariant rest <= groups.Keys
      invariant forall key :: key in result ==> key in groups.Keys - rest
      invariant forall key :: key in groups.Keys - rest ==>
                  (if key in result then Some(result[key]) else None) == DecisionAbout(rows, key.0, key.1)
      decreases rest
    {
      var key :| key in rest;
      assert groups[key] == Group(groups, key);
      SortMultiset(groups[key]);
      var decision := Decide(groups[key]);
      if decision.Some? {
        result := result[key := decision.value];
      }
      rest := rest - {key};
    }
    forall key | key !in groups ensures DecisionAbout(rows, key.0, key.1) == None {
      assert Group(groups, key) == [];
    }
  }

  // ---- the decision does not depend on the order of arrival ---------------------------------

  lemma {:induction false} AboutCount(rows: seq<LogRow>, p: PerfId, u: UserId, r: LogRow)
    ensures multiset(About(rows, p, u))[r] == if r.About(p, u) then multiset(rows)[r] else 0
  {
    if rows != [] {
      var init, last := rows[..|rows| - 1], rows[|rows| - 1];
      assert rows == init + [last];
      AboutCount(init, p, u, r);
    }
  }

  lemma {:induction false} AboutUpcoming(st: State, logs: seq<LogRow>, now: int, p: PerfId, u: UserId)
    ensures About(UpcomingRows(st, logs, now), p, u) == if Upcoming(st, p, now) then About(logs, p, u) else []
  {
    if logs != [] {
      var init, last := logs[..|logs| - 1], logs[|logs| - 1];
      AboutUpcoming(st, init, now, p, u);
      if !(last.perf.Some? && Upcoming(st, last.perf.value, now)) {
        assert UpcomingRows(st, logs, now) == UpcomingRows(st, init, now);
      }
    }
  }

  lemma {:induction false} AboutMultiset(a: seq<LogRow>, b: seq<LogRow>, p: PerfId, u: UserId)
    requires multiset(a) == multiset(b)
    ensures multiset(About(a, p, u)) == multiset(About(b, p, u))
  {
    forall r ensures multiset(About(a, p, u))[r] == multiset(About(b, p, u))[r] {
      AboutCount(a, p, u, r);
      AboutCount(b, p, u, r);
    }
  }

  lemma {:induction false} AboutTies(rows: seq<LogRow>, p: PerfId, u: UserId)
    requires TiesInOrder(rows)
    ensures TiesInOrder(About(rows, p, u))
  {
    if rows != [] {
      var n := |rows| - 1;
      var group := About(rows[..n], p, u);
      AboutTies(rows[..n], p, u);
      if rows[n].About(p, u) {
        forall i | 0 <= i < |group| && group[i].created == rows[n].created ensures group[i].id < rows[n].id {
          AboutMember(rows[..n], p, u, group[i]);
          var k :| 0 <= k < n && rows[..n][k] == group[i];
        }
      } else {
        assert About(rows, p, u) == group;
      }
    }
  }

  /** The order of arrival makes no difference to the decision. */
  lemma {:induction false} DecisionOnArrival(st: State, arrival: seq<LogRow>, now: int, p: PerfId, u: UserId)
    requires Stamped(st.tables.logs, st.now) && Arrives(arrival, st, now)
    ensures DecisionAbout(arrival, p, u) == if Upcoming(st, p, now) then Decision(st.tables.logs, p, u) else None
  {
    var logs := st.tables.logs;
    AboutMultiset(arrival, UpcomingRows(st, logs, now), p, u);
    AboutUpcoming(st, logs, now, p, u);
    AboutTies(arrival, p, u);
    var group := About(arrival, p, u);
    assert |multiset(group)| == |group|;
    if group != [] {
      assert group[0] in multiset(group);
      assert Upcoming(st, p, now);
      DecideIsDecision(group, logs, st.now, p, u);
    } else if Upcoming(st, p, now) {
      assert |multiset(About(logs, p, u))| == 0;
    }
  }

  /**
    When the job decides right, exactly: for every order of arrival it tells the users due a notice on an upcoming
    performance, and about their latest row, if and only if the notice it takes for the last one says the same as the
    last one.
  */
  lemma {:induction false} DecisionIsDue(st: State, arrival: seq<LogRow>, now: int, p: PerfId, u: UserId)
    requires Stamped(st.tables.logs, st.now) && Arrives(arrival, st, now) && Upcoming(st, p, now)
    ensures var logs := st.tables.logs;
            LastNoticeFound(logs, p, u)
            <==> DecisionAbout(arrival, p, u) == (if Due(logs, p, u) then LastRow(logs, p, u) else None)
  {
    DecisionOnArrival(st, arrival, now, p, u);
    DecisionExact(st.tables.logs, p, u);
  }

  // ---- grouping by user and marking ---------------------------------------------------------

  lemma {:induction false} MarkedTwice(logs: seq<LogRow>, a: set<nat>, b: set<nat>, now: int)
    ensures Marked(Marked(logs, a, now), b, now) == Marked(logs, a + b, now)
  {
    forall i | 0 <= i < |logs| ensures Marked(Marked(logs, a, now), b, now)[i] == Marked(logs, a + b, now)[i] {
    }
  }

  /** The ids to mark for one user. */
  function IdsOfUser(entries: map<Pair, LogRow>, u: UserId): set<nat> {
    set key | key in entries && key.1 == u :: entries[key].id
  }

  /** Entries bundled by user: one mail each. */
  method BundleByUser(entries: map<Pair, LogRow>) returns (bundles: map<UserId, set<nat>>)
    ensures forall u :: u in bundles <==> exists p: PerfId :: (p, u) in entries
    ensures forall u :: u in bundles ==> bundles[u] == IdsOfUser(entries, u)
  {
    bundles := map[];
    var rest := entries.Keys;
    while rest != {}
      invariant rest <= entries.Keys
      invariant forall u :: u in bundles <==> exists p: PerfId :: (p, u) in entries.Keys - rest
      invariant forall u :: u in bundles ==>
                  bundles[u] == set key | key in entries && key !in rest && key.1 == u :: entries[key].id
      decreases rest
    {
      var key :| key in rest;
      var (p, u) := key;
      var ids := if u in bundles then bundles[u] else {};
      assert ids == set k | k in entries && k !in rest && k.1 == u :: entries[k].id;
      bundles := bundles[u := ids + {entries[key].id}];
      assert bundles[u] == set k | k in entries && k !in rest - {key} && k.1 == u :: entries[k].id;
      rest := rest - {key};
      assert (p, u) in entries.Keys - rest;
    }
  }

  /** The row told about one pair, if any, is the one the job decided on. */
  lemma {:induction false} EntryMarks(st: State, arrival: seq<LogRow>, now: int, key: Pair, r: LogRow)
    requires Stamped(st.tables.logs, st.now) && Arrives(arrival, st, now)
    ensures DecisionAbout(arrival, key.0, key.1) == Some(r) && Mailable(st, key.1) <==>
              Marks(st, r, now) && r.About(key.0, key.1)
  {
    DecisionOnArrival(st, arrival, now, key.0, key.1);
    DecisionLatest(st.tables.logs, key.0, key.1);
  }

  lemma {:induction false} EntryMarked(st: State, arrival: seq<LogRow>, now: int, key: Pair, r: LogRow)
    requires Stamped(st.tables.logs, st.now) && Arrives(arrival, st, now)
    requires DecisionAbout(arrival, key.0, key.1) == Some(r) && Mailable(st, key.1)
    ensures r.id in MarkedIds(st, now)
  {
    EntryMarks(st, arrival, now, key, r);
    DecisionLatest(st.tables.logs, key.0, key.1);
    assert r in st.tables.logs;
  }

  /** All rows the job marks, as one set. */
  lemma {:induction false} MarkedIdsAre(st: State, arrival: seq<LogRow>, now: int, entries: map<Pair, LogRow>, id: nat)
    requires Stamped(st.tables.logs, st.now) && Arrives(arrival, st, now)
    requires forall key :: (if key in entries then Some(entries[key]) else None) == DecisionAbout(arrival, key.0, key.1)
    ensures id in MarkedIds(st, now) <==> exists key :: key in entries && Mailable(st, key.1) && entries[key].id == id
  {
    if id in MarkedIds(st, now) {
      var r :| r in st.tables.logs && Marks(st, r, now) && r.id == id;
      var key := (r.perf.value, r.user.value);
      EntryMarks(st, arrival, now, key, r);
      assert key in entries && entries[key] == r;
    }
    if key :| key in entries && Mailable(st, key.1) && entries[key].id == id {
      EntryMarked(st, arrival, now, key, entries[key]);
    }
  }
}
