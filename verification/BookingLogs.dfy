/** The append-only table `booking_logs`, and what a reader concludes from it. */
module BookingLogs {
  import opened Positions
  import opened Tables
  import opened CastDiff

  /** perf and user are nullable (ON DELETE SET NULL); created_at is the time of the writing transaction. */
  datatype LogRow = LogRow(
    id: nat, perf: Option<PerfId>, user: Option<UserId>, kind: LogType, key: PositionKey, fee: nat,
    created: int, notified: Option<int>)
  {
    predicate About(p: PerfId, u: UserId) {
      perf == Some(p) && user == Some(u)
    }
  }

  /** The rows one call of the diff engine appends; ids are generated in insertion order. */
  function LogRows(ts: seq<Transition>, firstId: nat, slot: Slot, now: int): (rows: seq<LogRow>)
    ensures |rows| == |ts|
    ensures forall i :: 0 <= i < |ts| ==>
              rows[i] == LogRow(firstId + i, Some(slot.perf), Some(ts[i].user), ts[i].kind, slot.key, ts[i].fee, now,
                                None)
  {
    seq(|ts|, i requires 0 <= i < |ts| =>
      LogRow(firstId + i, Some(slot.perf), Some(ts[i].user), ts[i].kind, slot.key, ts[i].fee, now, None))
  }

  function Logged(logs: seq<LogRow>, ts: seq<Transition>, slot: Slot, now: int): seq<LogRow> {
    logs + LogRows(ts, |logs|, slot, now)
  }

  /** The latest row about a user on a performance. */
  function LastRow(logs: seq<LogRow>, p: PerfId, u: UserId): (r: Option<LogRow>)
    ensures r.Some? ==> r.value in logs && r.value.About(p, u)
    ensures r.None? ==> forall x :: x in logs ==> !x.About(p, u)
  {
    if logs == [] then None
    else
      assert logs == logs[..|logs| - 1] + [logs[|logs| - 1]];
      if logs[|logs| - 1].About(p, u) then Some(logs[|logs| - 1]) else LastRow(logs[..|logs| - 1], p, u)
  }

  /** The log says "book" about the user. */
  predicate LoggedIn(logs: seq<LogRow>, p: PerfId, u: UserId) {
    LastRow(logs, p, u).Some? && LastRow(logs, p, u).value.kind == Book
  }

  lemma {:induction false} LastRowConcat(a: seq<LogRow>, b: seq<LogRow>, p: PerfId, u: UserId)
    ensures LastRow(a + b, p, u) == if LastRow(b, p, u).Some? then LastRow(b, p, u) else LastRow(a, p, u)
  {
    if b == [] {
      assert a + b == a;
    } else {
      assert (a + b)[..|a + b| - 1] == a + b[..|b| - 1];
      LastRowConcat(a, b[..|b| - 1], p, u);
    }
  }

  lemma {:induction false} LastRowOfTransitions(ts: seq<Transition>, firstId: nat, slot: Slot, now: int, p: PerfId,
                                                u: UserId)
    ensures var (r, k) := (LastRow(LogRows(ts, firstId, slot, now), p, u), LastKind(ts, u));
            if p == slot.perf && k.Some? then r.Some? && r.value.kind == k.value else r.None?
  {
    if ts != [] {
      var init := ts[..|ts| - 1];
      LastRowOfTransitions(init, firstId, slot, now, p, u);
      assert LogRows(ts, firstId, slot, now)[..|ts| - 1] == LogRows(init, firstId, slot, now);
    }
  }

  /** What the log says after a diff has been appended to it. */
  lemma {:induction false} LoggedInAfter(logs: seq<LogRow>, ts: seq<Transition>, slot: Slot, now: int, p: PerfId,
                                         u: UserId)
    ensures LoggedIn(Logged(logs, ts, slot, now), p, u)
            <==> if p == slot.perf && LastKind(ts, u).Some? then LastKind(ts, u) == Some(Book) else LoggedIn(logs, p, u)
  {
    LastRowConcat(logs, LogRows(ts, |logs|, slot, now), p, u);
    LastRowOfTransitions(ts, |logs|, slot, now, p, u);
  }
}
