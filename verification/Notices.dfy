/**
  What the booking-status job concludes from the log: whom it has told what, and what it still has to tell. The job
  reads the rows in no particular order and sorts them by their transaction time; that the order of arrival makes no
  difference is shown here for the sort, and in module Jobs for the job.
*/
module Notices {
  import opened Positions
  import opened Tables
  import opened CastDiff
  import opened BookingLogs

  // ---- the decision, as the job computes it -------------------------------------------------

  /** sorted(rows, key=created_at): stable. */
  function InsertByTime(sorted: seq<LogRow>, r: LogRow): seq<LogRow> {
    if sorted == [] || sorted[|sorted| - 1].created <= r.created then sorted + [r]
    else InsertByTime(sorted[..|sorted| - 1], r) + [sorted[|sorted| - 1]]
  }

  function SortByTime(rows: seq<LogRow>): seq<LogRow> {
    if rows == [] then [] else InsertByTime(SortByTime(rows[..|rows| - 1]), rows[|rows| - 1])
  }

  /** max(rows, key=created_at): the first among equals. */
  function FirstLatest(rows: seq<LogRow>): LogRow
    requires rows != []
  {
    var last := rows[|rows| - 1];
    if |rows| == 1 then last
    else
      var best := FirstLatest(rows[..|rows| - 1]);
      if best.created < last.created then last else best
  }

  function Notified(rows: seq<LogRow>): seq<LogRow> {
    if rows == [] then []
    else Notified(rows[..|rows| - 1]) + (if rows[|rows| - 1].notified.Some? then [rows[|rows| - 1]] else [])
  }

  /** The decision on the sorted rows: the row to notify about, if any. */
  function DecideOrdered(ordered: seq<LogRow>): Option<LogRow>
    requires ordered != []
  {
    var latest := ordered[|ordered| - 1];
    if latest.notified.Some? then None
    else if Notified(ordered) != [] then
      if FirstLatest(Notified(ordered)).kind != latest.kind then Some(latest) else None
    else if latest.kind == Book then Some(latest)
    else None
  }

  /** The row to notify about, among all rows about one user on one performance, in the order they arrive. */
  function Decide(rows: seq<LogRow>): Option<LogRow>
    requires SortByTime(rows) != []
  {
    DecideOrdered(SortByTime(rows))
  }

  // ---- what the user has been told ----------------------------------------------------------

  /** The rows about one user on one performance, in the order they were written. */
  function About(logs: seq<LogRow>, p: PerfId, u: UserId): seq<LogRow> {
    if logs == [] then []
    else About(logs[..|logs| - 1], p, u) + (if logs[|logs| - 1].About(p, u) then [logs[|logs| - 1]] else [])
  }

  /** The notices a user got about a performance, oldest first. */
  function Told(logs: seq<LogRow>, p: PerfId, u: UserId): seq<LogRow> {
    Notified(About(logs, p, u))
  }

  /** The last thing the user was told is "you are booked". */
  predicate ToldBooked(logs: seq<LogRow>, p: PerfId, u: UserId) {
    var told := Told(logs, p, u);
    told != [] && told[|told| - 1].kind == Book
  }

  /** book, unbook, book, ... starting with book. */
  predicate Alternates(told: seq<LogRow>) {
    told == [] ||
    (told[|told| - 1].kind == (if |told| % 2 == 1 then Book else Unbook) && Alternates(told[..|told| - 1]))
  }

  /** The user is due a notice: the log has moved on since the last one, to something else than it said. */
  predicate Due(logs: seq<LogRow>, p: PerfId, u: UserId) {
    && LastRow(logs, p, u).Some?
    && var (latest, told) := (LastRow(logs, p, u).value, Told(logs, p, u));
    && latest.notified.None?
    && latest.kind != (if told == [] then Unbook else told[|told| - 1].kind)
  }

  /** What the job decides, whatever order the rows arrive in. */
  function Decision(logs: seq<LogRow>, p: PerfId, u: UserId): Option<LogRow> {
    var group := About(logs, p, u);
    if group == [] then None else DecideOrdered(group)
  }

  // ---- the job's marks ----------------------------------------------------------------------

  /** Sets notified_at on the rows with the given ids. */
  function Marked(logs: seq<LogRow>, ids: set<nat>, now: int): (r: seq<LogRow>)
    ensures |r| == |logs|
    ensures forall i :: 0 <= i < |logs| ==>
              r[i] == if logs[i].id in ids then logs[i].(notified := Some(now)) else logs[i]
  {
    if logs == [] then []
    else
      var last := logs[|logs| - 1];
      Marked(logs[..|logs| - 1], ids, now) + [if last.id in ids then last.(notified := Some(now)) else last]
  }

  // ---- invariants of the log ----------------------------------------------------------------

  /** Ids number the rows, and no row was written before an earlier one or after the present. */
  predicate Stamped(logs: seq<LogRow>, now: int) {
    logs == [] ||
    (var last := logs[|logs| - 1];
     last.id == |logs| - 1 && last.created <= now && Stamped(logs[..|logs| - 1], last.created))
  }

  /** The rows already told stem from different transactions. */
  predicate TimesApart(told: seq<LogRow>) {
    |told| < 2 || (told[|told| - 2].created < told[|told| - 1].created && TimesApart(told[..|told| - 1]))
  }

  /** The latest row was told, or is from a later transaction than everything that was. */
  predicate FreshSince(logs: seq<LogRow>, p: PerfId, u: UserId) {
    var (latest, told) := (LastRow(logs, p, u), Told(logs, p, u));
    told != [] ==> latest.Some? && (latest.value == told[|told| - 1] || told[|told| - 1].created < latest.value.created)
  }

  /** What the job relies on, and keeps, about each user and performance. */
  predicate NoticesOk(logs: seq<LogRow>, p: PerfId, u: UserId) {
    Alternates(Told(logs, p, u)) && TimesApart(Told(logs, p, u)) && FreshSince(logs, p, u)
  }

  // ---- any order of arrival gives the same decision -----------------------------------------

  predicate Increasing(rows: seq<LogRow>) {
    |rows| < 2 || (rows[|rows| - 2].id < rows[|rows| - 1].id && Increasing(rows[..|rows| - 1]))
  }

  /** Rows of equal time, so in particular the rows of one transaction, come in the order they were written. */
  ghost predicate TiesInOrder(rows: seq<LogRow>) {
    forall i, j :: 0 <= i < j < |rows| && rows[i].created == rows[j].created ==> rows[i].id < rows[j].id
  }

  /** Later ids do not carry earlier times. */
  ghost predicate Coherent(rows: seq<LogRow>) {
    forall i, j :: 0 <= i < |rows| && 0 <= j < |rows| && rows[i].id < rows[j].id ==> rows[i].created <= rows[j].created
  }

  lemma {:induction false} InsertMultiset(sorted: seq<LogRow>, r: LogRow)
    ensures multiset(InsertByTime(sorted, r)) == multiset(sorted) + multiset{r}
  {
    if !(sorted == [] || sorted[|sorted| - 1].created <= r.created) {
      InsertMultiset(sorted[..|sorted| - 1], r);
      assert sorted == sorted[..|sorted| - 1] + [sorted[|sorted| - 1]];
    }
  }

  lemma {:induction false} SortMultiset(rows: seq<LogRow>)
    ensures multiset(SortByTime(rows)) == multiset(rows)
    ensures |SortByTime(rows)| == |rows|
  {
    if rows != [] {
      SortMultiset(rows[..|rows| - 1]);
      InsertMultiset(SortByTime(rows[..|rows| - 1]), rows[|rows| - 1]);
      assert rows == rows[..|rows| - 1] + [rows[|rows| - 1]];
    }
    assert |multiset(SortByTime(rows))| == |multiset(rows)|;
  }

  lemma {:induction false} InsertIncreasing(sorted: seq<LogRow>, r: LogRow)
    requires Increasing(sorted)
    requires forall i :: 0 <= i < |sorted| ==>
               if sorted[i].created <= r.created then sorted[i].id < r.id else r.id < sorted[i].id
    ensures Increasing(InsertByTime(sorted, r))
    ensures InsertByTime(sorted, r) != []
    ensures var last := InsertByTime(sorted, r)[|InsertByTime(sorted, r)| - 1];
            last == r || (sorted != [] && last == sorted[|sorted| - 1])
  {
    if sorted == [] {
    } else if sorted[|sorted| - 1].created <= r.created {
      assert (sorted + [r])[..|sorted|] == sorted;
    } else {
      var init, last := sorted[..|sorted| - 1], sorted[|sorted| - 1];
      InsertIncreasing(init, r);
      var inserted := InsertByTime(init, r);
      assert (inserted + [last])[..|inserted|] == inserted;
      assert init != [] ==> init[|init| - 1].id < last.id;
    }
  }

  predicate DistinctIds(rows: seq<LogRow>) {
    forall i, j :: 0 <= i < j < |rows| ==> rows[i].id != rows[j].id
  }

  /** Where the last row belongs among the sorted rows before it. */
  lemma {:induction false} LastRowPlace(rows: seq<LogRow>, sorted: seq<LogRow>, k: nat)
    requires rows != [] && TiesInOrder(rows) && Coherent(rows) && DistinctIds(rows)
    requires k < |sorted| && multiset(sorted) == multiset(rows[..|rows| - 1])
    ensures var r := rows[|rows| - 1];
            if sorted[k].created <= r.created then sorted[k].id < r.id else r.id < sorted[k].id
  {
    var n := |rows| - 1;
    assert sorted[k] in multiset(rows[..n]);
    var i :| 0 <= i < n && rows[i] == sorted[k];
  }

  lemma {:induction false} SortIncreasing(rows: seq<LogRow>)
    requires TiesInOrder(rows) && Coherent(rows) && DistinctIds(rows)
    ensures Increasing(SortByTime(rows))
  {
    if rows != [] {
      var n := |rows| - 1;
      var sorted := SortByTime(rows[..n]);
      SortIncreasing(rows[..n]);
      SortMultiset(rows[..n]);
      forall k | 0 <= k < |sorted|
        ensures if sorted[k].created <= rows[n].created then sorted[k].id < rows[n].id else rows[n].id < sorted[k].id
      {
        LastRowPlace(rows, sorted, k);
      }
      InsertIncreasing(sorted, rows[n]);
    }
  }

  lemma {:induction false} IncreasingBelow(rows: seq<LogRow>, i: nat)
    requires Increasing(rows) && i < |rows| - 1
    ensures rows[i].id < rows[|rows| - 1].id
  {
    if i < |rows| - 2 {
      IncreasingBelow(rows[..|rows| - 1], i);
    }
  }

  lemma {:induction false} IncreasingTop(rows: seq<LogRow>, x: LogRow)
    requires Increasing(rows) && x in rows
    ensures x.id <= rows[|rows| - 1].id
    ensures x.id == rows[|rows| - 1].id ==> x == rows[|rows| - 1]
  {
    var i :| 0 <= i < |rows| && rows[i] == x;
    if i < |rows| - 1 {
      IncreasingBelow(rows, i);
    }
  }

  lemma {:induction false} MultisetSnoc(rows: seq<LogRow>)
    requires rows != []
    ensures rows[|rows| - 1] in multiset(rows)
    ensures multiset(rows[..|rows| - 1]) == multiset(rows) - multiset{rows[|rows| - 1]}
  {
    assert rows == rows[..|rows| - 1] + [rows[|rows| - 1]];
  }

  lemma {:induction false} SnocEqual(a: seq<LogRow>, b: seq<LogRow>)
    requires a != [] && b != [] && a[..|a| - 1] == b[..|b| - 1] && a[|a| - 1] == b[|b| - 1]
    ensures a == b
  {
    assert a == a[..|a| - 1] + [a[|a| - 1]] && b == b[..|b| - 1] + [b[|b| - 1]];
  }

  /** Two lists of the same rows, both in the order of writing, are the same list. */
  lemma {:induction false} IncreasingUnique(a: seq<LogRow>, b: seq<LogRow>)
    requires Increasing(a) && Increasing(b) && multiset(a) == multiset(b)
    ensures a == b
  {
    assert |a| == |multiset(a)| == |multiset(b)| == |b|;
    if a != [] {
      var x, y := a[|a| - 1], b[|b| - 1];
      MultisetSnoc(a);
      MultisetSnoc(b);
      IncreasingTop(b, x);
      IncreasingTop(a, y);
      IncreasingUnique(a[..|a| - 1], b[..|b| - 1]);
      SnocEqual(a, b);
    }
  }

  // ---- rows about one user, in order of writing ---------------------------------------------

  lemma {:induction false} AboutLast(logs: seq<LogRow>, p: PerfId, u: UserId)
    ensures LastRow(logs, p, u)
            == if About(logs, p, u) == [] then None else Some(About(logs, p, u)[|About(logs, p, u)| - 1])
  {
    if logs != [] {
      AboutLast(logs[..|logs| - 1], p, u);
    }
  }

  lemma {:induction false} AboutMember(logs: seq<LogRow>, p: PerfId, u: UserId, r: LogRow)
    ensures r in About(logs, p, u) <==> r in logs && r.About(p, u)
  {
    if logs != [] {
      AboutMember(logs[..|logs| - 1], p, u, r);
      assert logs == logs[..|logs| - 1] + [logs[|logs| - 1]];
    }
  }

  lemma {:induction false} StampedAt(logs: seq<LogRow>, now: int, i: nat)
    requires Stamped(logs, now) && i < |logs|
    ensures logs[i].id == i && logs[i].created <= now
  {
    if i < |logs| - 1 {
      StampedAt(logs[..|logs| - 1], logs[|logs| - 1].created, i);
    }
  }

  lemma {:induction false} StampedMonotone(logs: seq<LogRow>, now: int, i: nat, j: nat)
    requires Stamped(logs, now) && i <= j < |logs|
    ensures logs[i].created <= logs[j].created
  {
    if j < |logs| - 1 {
      StampedMonotone(logs[..|logs| - 1], logs[|logs| - 1].created, i, j);
    } else if i < j {
      StampedAt(logs[..|logs| - 1], logs[|logs| - 1].created, i);
    }
  }

  lemma {:induction false} StampedLater(logs: seq<LogRow>, now: int, later: int)
    requires Stamped(logs, now) && now <= later
    ensures Stamped(logs, later)
  {
  }

  lemma {:induction false} AboutIncreasing(logs: seq<LogRow>, now: int, p: PerfId, u: UserId)
    requires Stamped(logs, now)
    ensures Increasing(About(logs, p, u))
  {
    if logs != [] {
      var n := |logs| - 1;
      var init := About(logs[..n], p, u);
      AboutIncreasing(logs[..n], logs[n].created, p, u);
      if logs[n].About(p, u) {
        if init != [] {
          AboutMember(logs[..n], p, u, init[|init| - 1]);
          var i :| 0 <= i < n && logs[..n][i] == init[|init| - 1];
          StampedAt(logs, now, i);
          StampedAt(logs, now, n);
        }
        assert (init + [logs[n]])[..|init|] == init;
      } else {
        assert About(logs, p, u) == init;
      }
    }
  }

  lemma {:induction false} TimesApartFirst(told: seq<LogRow>)
    requires told != [] && TimesApart(told)
    ensures FirstLatest(told) == told[|told| - 1]
  {
    if |told| > 1 {
      TimesApartFirst(told[..|told| - 1]);
    }
  }

  /** The order of arrival does not matter, as long as rows of one transaction keep theirs. */
  lemma {:induction false} DecideIsDecision(rows: seq<LogRow>, logs: seq<LogRow>, now: int, p: PerfId, u: UserId)
    requires Stamped(logs, now)
    requires multiset(rows) == multiset(About(logs, p, u)) && TiesInOrder(rows) && rows != []
    ensures SortByTime(rows) == About(logs, p, u)
    ensures SortByTime(rows) != []
    ensures Decide(rows) == Decision(logs, p, u)
  {
    ArrivalSorted(rows, logs, now, p, u);
  }

  /**
    The job finds the last notice by its time. If the latest row is untold, the notice it finds has to say the same as
    the one given last.
  */
  predicate LastNoticeFound(logs: seq<LogRow>, p: PerfId, u: UserId) {
    var (latest, told) := (LastRow(logs, p, u), Told(logs, p, u));
    latest.Some? && latest.value.notified.None? && told != [] ==> FirstLatest(told).kind == told[|told| - 1].kind
  }

  /** The exact condition for the job to decide right: to tell about the latest row exactly the users due a notice. */
  lemma {:induction false} DecisionExact(logs: seq<LogRow>, p: PerfId, u: UserId)
    ensures Decision(logs, p, u) == (if Due(logs, p, u) then LastRow(logs, p, u) else None)
            <==> LastNoticeFound(logs, p, u)
  {
    AboutLast(logs, p, u);
  }

  /** Notices from different transactions, in the order given, are told apart. */
  lemma {:induction false} DecisionDue(logs: seq<LogRow>, p: PerfId, u: UserId)
    requires TimesApart(Told(logs, p, u))
    ensures Decision(logs, p, u) == if Due(logs, p, u) then LastRow(logs, p, u) else None
  {
    DecisionExact(logs, p, u);
    if Told(logs, p, u) != [] {
      TimesApartFirst(Told(logs, p, u));
    }
  }

  lemma {:induction false} ArrivalSorted(rows: seq<LogRow>, logs: seq<LogRow>, now: int, p: PerfId, u: UserId)
    requires Stamped(logs, now)
    requires multiset(rows) == multiset(About(logs, p, u)) && TiesInOrder(rows)
    ensures SortByTime(rows) == About(logs, p, u)
    ensures |rows| == |About(logs, p, u)|
  {
    var group := About(logs, p, u);
    AboutIncreasing(logs, now, p, u);
    ArrivalDistinct(rows, group);
    ArrivalCoherent(rows, logs, now, p, u);
    SortIncreasing(rows);
    SortMultiset(rows);
    IncreasingUnique(SortByTime(rows), group);
  }

  lemma {:induction false} ArrivalCoherent(rows: seq<LogRow>, logs: seq<LogRow>, now: int, p: PerfId, u: UserId)
    requires Stamped(logs, now) && multiset(rows) == multiset(About(logs, p, u))
    ensures Coherent(rows)
  {
    forall i, j | 0 <= i < |rows| && 0 <= j < |rows| && rows[i].id < rows[j].id
      ensures rows[i].created <= rows[j].created
    {
      var a := ArrivalIndex(rows, logs, now, p, u, i);
      var b := ArrivalIndex(rows, logs, now, p, u, j);
      StampedMonotone(logs, now, a, b);
    }
  }

  lemma {:induction false} ArrivalIndex(rows: seq<LogRow>, logs: seq<LogRow>, now: int, p: PerfId, u: UserId, i: nat)
    returns (k: nat)
    requires Stamped(logs, now) && multiset(rows) == multiset(About(logs, p, u)) && i < |rows|
    ensures k < |logs| && logs[k] == rows[i] && k == rows[i].id
  {
    assert rows[i] in multiset(About(logs, p, u));
    AboutMember(logs, p, u, rows[i]);
    k :| 0 <= k < |logs| && logs[k] == rows[i];
    StampedAt(logs, now, k);
  }

  /** Ids are not repeated among the arriving rows, because they are not among the rows in the table. */
  lemma {:induction false} ArrivalDistinct(rows: seq<LogRow>, group: seq<LogRow>)
    requires Increasing(group) && multiset(rows) == multiset(group)
    ensures DistinctIds(rows)
  {
    forall i, j | 0 <= i < j < |rows|
      ensures rows[i].id != rows[j].id
    {
      if rows[i].id == rows[j].id {
        assert rows[i] in multiset(group) && rows[j] in multiset(group);
        SameIdSameRow(group, rows[i], rows[j]);
        TwiceInMultiset(rows, i, j);
        OnceInMultiset(group, rows[i]);
      }
    }
  }

  lemma {:induction false} SameIdSameRow(group: seq<LogRow>, a: LogRow, b: LogRow)
    requires Increasing(group) && a in group && b in group && a.id == b.id
    ensures a == b
  {
    var init, last := group[..|group| - 1], group[|group| - 1];
    assert group == init + [last];
    var i :| 0 <= i < |group| && group[i] == a;
    var j :| 0 <= j < |group| && group[j] == b;
    if i < |init| && j < |init| {
      assert init[i] == a && init[j] == b;
      SameIdSameRow(init, a, b);
    } else if i < |init| {
      IncreasingBelow(group, i);
    } else if j < |init| {
      IncreasingBelow(group, j);
    }
  }

  lemma {:induction false} OnceInMultiset(group: seq<LogRow>, a: LogRow)
    requires Increasing(group)
    ensures multiset(group)[a] <= 1
  {
    if group != [] {
      var init, last := group[..|group| - 1], group[|group| - 1];
      assert group == init + [last];
      OnceInMultiset(init, a);
      if a == last && a in init {
        var i :| 0 <= i < |init| && init[i] == a;
        IncreasingBelow(group, i);
      }
      assert multiset(group) == multiset(init) + multiset{last};
    }
  }

  lemma {:induction false} TwiceInMultiset(rows: seq<LogRow>, i: nat, j: nat)
    requires i < j < |rows| && rows[i] == rows[j]
    ensures multiset(rows)[rows[i]] >= 2
  {
    assert rows == rows[..j] + [rows[j]] + rows[j + 1..];
    assert rows[..j][i] == rows[i];
    assert multiset(rows) == multiset(rows[..j]) + multiset{rows[j]} + multiset(rows[j + 1..]);
  }
}
