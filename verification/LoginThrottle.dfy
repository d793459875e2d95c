/**
  The login throttle, which keeps no counter: it is read off the audit log. Times are microseconds. A login takes its
  decision at one reading of the clock and writes its log row at a later one.
*/
module LoginThrottle {
  import opened Positions

  const SECOND := 1_000_000
  const WINDOW := 60 * SECOND
  const MAX_LOGIN_ATTEMPTS := 5

  datatype Event = Login | Failed | Lockout | Logout | Verified | PasswordReset

  datatype AuthRow = AuthRow(event: Event, email: string, ip: Option<string>, firedAt: int)

  /** Attempts are counted per lower-case address and client. */
  datatype Key = Key(email: string, ip: string)

  function LowerChar(c: char): char {
    if 'A' <= c <= 'Z' then c + 32 as char else c
  }

  function Lower(s: string): string {
    seq(|s|, i requires 0 <= i < |s| => LowerChar(s[i]))
  }

  function KeyOfAttempt(email: string, ip: string): Key {
    Key(Lower(email), ip)
  }

  predicate Is(r: AuthRow, event: Event, key: Key) {
    r.event == event && r.ip == Some(key.ip) && Lower(r.email) == key.email
  }

  // ---- the check ----------------------------------------------------------------------------

  /** The latest successful login. */
  function LastSuccess(rows: seq<AuthRow>, key: Key): Option<int> {
    if rows == [] then None
    else
      var (before, last) := (LastSuccess(rows[..|rows| - 1], key), rows[|rows| - 1]);
      if Is(last, Login, key) && (before.None? || before.value <= last.firedAt) then Some(last.firedAt) else before
  }

  /** Failures count from here on: the last minute, or since the last success if that is later. */
  function EffectiveStart(rows: seq<AuthRow>, key: Key, now: int): int {
    var success := LastSuccess(rows, key);
    if success.Some? && success.value > now - WINDOW then success.value else now - WINDOW
  }

  function FailedAfter(rows: seq<AuthRow>, key: Key, start: int): seq<int> {
    if rows == [] then []
    else
      var last := rows[|rows| - 1];
      FailedAfter(rows[..|rows| - 1], key, start)
        + (if Is(last, Failed, key) && last.firedAt > start then [last.firedAt] else [])
  }

  /** The failures that count at a given time. */
  function Recent(rows: seq<AuthRow>, key: Key, now: int): seq<int> {
    FailedAfter(rows, key, EffectiveStart(rows, key, now))
  }

  /** int() of a number of seconds. */
  function WholeSeconds(microseconds: int): int {
    if microseconds >= 0 then microseconds / SECOND else -(-microseconds / SECOND)
  }

  function Max(a: int, b: int): int {
    if a < b then b else a
  }

  /** Seconds to wait, if the pair is blocked. */
  function Check(rows: seq<AuthRow>, key: Key, now: int): Option<int> {
    var failed := Recent(rows, key, now);
    if |failed| < MAX_LOGIN_ATTEMPTS then None
    else Some(Max(1, WholeSeconds(failed[|failed| - MAX_LOGIN_ATTEMPTS] + WINDOW - now)))
  }

  /** The rows were written one after the other, and none after now. */
  predicate Chronological(rows: seq<AuthRow>, now: int) {
    rows == [] || (rows[|rows| - 1].firedAt <= now && Chronological(rows[..|rows| - 1], rows[|rows| - 1].firedAt))
  }

  // ---- a login ------------------------------------------------------------------------------

  /** What authenticating by address and password comes to. */
  datatype Verdict = Ok | UnknownEmail | WrongPassword | AccountLocked

  datatype Response = LoggedIn | Unauthorized | Forbidden | TooManyRequests(seconds: int)

  /** One request to log in: decided at checkedAt, logged at firedAt. The verdict matters only if not blocked. */
  datatype Attempt = Attempt(email: string, ip: string, verdict: Verdict, checkedAt: int, firedAt: int)
  {
    function Key(): Key {
      KeyOfAttempt(email, ip)
    }

    function Row(event: Event): AuthRow {
      AuthRow(event, email, Some(ip), firedAt)
    }
  }

  function EventOf(rows: seq<AuthRow>, a: Attempt): Event {
    if Check(rows, a.Key(), a.checkedAt).Some? then Lockout else if a.verdict == Ok then Login else Failed
  }

  function Attempted(rows: seq<AuthRow>, a: Attempt): seq<AuthRow> {
    rows + [a.Row(EventOf(rows, a))]
  }

  class AuthLog {
    var rows: seq<AuthRow>

    constructor ()
      ensures rows == []
    {
      rows := [];
    }

    method LogAuthEvent(event: Event, email: string, ip: Option<string>, firedAt: int)
      modifies this
      ensures rows == old(rows) + [AuthRow(event, email, ip, firedAt)]
    {
      rows := rows + [AuthRow(event, email, ip, firedAt)];
    }

    method CheckLoginThrottle(email: string, ip: string, now: int) returns (retryAfter: Option<int>)
      ensures retryAfter == Check(rows, KeyOfAttempt(email, ip), now)
    {
      var key := KeyOfAttempt(email, ip);
      var lastSuccess: Option<int> := None;
      for i := 0 to |rows|
        invariant lastSuccess == LastSuccess(rows[..i], key)
      {
        assert rows[..i + 1][..i] == rows[..i];
        if Is(rows[i], Login, key) && (lastSuccess.None? || lastSuccess.value <= rows[i].firedAt) {
          lastSuccess := Some(rows[i].firedAt);
        }
      }
      assert rows[..|rows|] == rows;
      var effectiveStart := now - WINDOW;
      if lastSuccess.Some? && lastSuccess.value > effectiveStart {
        effectiveStart := lastSuccess.value;
      }
      var failedTimes: seq<int> := [];
      for i := 0 to |rows|
        invariant failedTimes == FailedAfter(rows[..i], key, effectiveStart)
      {
        assert rows[..i + 1][..i] == rows[..i];
        if Is(rows[i], Failed, key) && rows[i].firedAt > effectiveStart {
          failedTimes := failedTimes + [rows[i].firedAt];
        }
      }
      if |failedTimes| < MAX_LOGIN_ATTEMPTS {
        return None;
      }
      var oldestRelevant := failedTimes[|failedTimes| - MAX_LOGIN_ATTEMPTS];
      retryAfter := Some(Max(1, WholeSeconds(oldestRelevant + WINDOW - now)));
    }

    /** Check, authenticate, log: blocked attempts are not authenticated and leave a "Lockout" row only. */
    method HandleLogin(a: Attempt) returns (response: Response)
      modifies this
      ensures rows == Attempted(old(rows), a)
      ensures response == match EventOf(old(rows), a)
                          case Lockout => TooManyRequests(Check(old(rows), a.Key(), a.checkedAt).value)
                          case Login => LoggedIn
                          case _ => if a.verdict == AccountLocked then Forbidden else Unauthorized
    {
      var secondsRemaining := CheckLoginThrottle(a.email, a.ip, a.checkedAt);
      if secondsRemaining.Some? {
        LogAuthEvent(Lockout, a.email, Some(a.ip), a.firedAt);
        return TooManyRequests(secondsRemaining.value);
      }
      if a.verdict == AccountLocked {
        LogAuthEvent(Failed, a.email, Some(a.ip), a.firedAt);
        return Forbidden;
      }
      if a.verdict != Ok {
        LogAuthEvent(Failed, a.email, Some(a.ip), a.firedAt);
        return Unauthorized;
      }
      LogAuthEvent(Login, a.email, Some(a.ip), a.firedAt);
      response := LoggedIn;
    }
  }

  // ---- the order of the query is the order of writing ---------------------------------------

  predicate Sorted(times: seq<int>) {
    |times| < 2 || (times[|times| - 2] <= times[|times| - 1] && Sorted(times[..|times| - 1]))
  }

  lemma {:induction false} FailedWithin(rows: seq<AuthRow>, key: Key, start: int, now: int, i: nat)
    requires Chronological(rows, now) && i < |FailedAfter(rows, key, start)|
    ensures start < FailedAfter(rows, key, start)[i] <= now
  {
    var init := rows[..|rows| - 1];
    if i < |FailedAfter(init, key, start)| {
      FailedWithin(init, key, start, rows[|rows| - 1].firedAt, i);
    }
  }

  /** Reading the failures in the order they were written is reading them by time. */
  lemma {:induction false} FailedSorted(rows: seq<AuthRow>, key: Key, start: int, now: int)
    requires Chronological(rows, now)
    ensures Sorted(FailedAfter(rows, key, start))
  {
    if rows != [] {
      var init, last := rows[..|rows| - 1], rows[|rows| - 1];
      var failed := FailedAfter(init, key, start);
      FailedSorted(init, key, start, last.firedAt);
      if Is(last, Failed, key) && last.firedAt > start {
        if failed != [] {
          FailedWithin(init, key, start, last.firedAt, |failed| - 1);
        }
        assert (failed + [last.firedAt])[..|failed|] == failed;
      } else {
        assert failed + [] == failed;
      }
    }
  }

  lemma {:induction false} SuccessWithin(rows: seq<AuthRow>, key: Key, now: int)
    requires Chronological(rows, now)
    ensures LastSuccess(rows, key).Some? ==> LastSuccess(rows, key).value <= now
  {
    if rows != [] {
      SuccessWithin(rows[..|rows| - 1], key, rows[|rows| - 1].firedAt);
    }
  }

  // ---- the bound ----------------------------------------------------------------------------

  lemma {:induction false} FailedFewer(rows: seq<AuthRow>, key: Key, start: int, later: int)
    requires start <= later
    ensures |FailedAfter(rows, key, later)| <= |FailedAfter(rows, key, start)|
  {
    if rows != [] {
      FailedFewer(rows[..|rows| - 1], key, start, later);
    }
  }

  /** Waiting never brings failures back. */
  lemma {:induction false} RecentFewer(rows: seq<AuthRow>, key: Key, now: int, later: int)
    requires now <= later
    ensures |Recent(rows, key, later)| <= |Recent(rows, key, now)|
  {
    FailedFewer(rows, key, EffectiveStart(rows, key, now), EffectiveStart(rows, key, later));
  }

  lemma {:induction false} FailedNone(rows: seq<AuthRow>, key: Key, start: int, now: int)
    requires Chronological(rows, now) && now <= start
    ensures FailedAfter(rows, key, start) == []
  {
    if FailedAfter(rows, key, start) != [] {
      FailedWithin(rows, key, start, now, 0);
    }
  }

  /** The failures that count after one more row. */
  lemma {:induction false} RecentSnoc(rows: seq<AuthRow>, r: AuthRow, key: Key, t: int)
    requires Chronological(rows, r.firedAt) && r.firedAt <= t
    ensures |Recent(rows + [r], key, t)|
            <= if Is(r, Login, key) then 0 else |Recent(rows, key, t)| + (if Is(r, Failed, key) then 1 else 0)
  {
    var longer := rows + [r];
    assert longer[..|rows|] == rows;
    SuccessWithin(rows, key, r.firedAt);
    if Is(r, Login, key) {
      FailedNone(rows, key, EffectiveStart(longer, key, t), r.firedAt);
    }
  }

  type Run = seq<Attempt>

  /** The log after a sequence of login requests, starting from a given one. */
  function After(rows: seq<AuthRow>, run: Run): seq<AuthRow> {
    if run == [] then rows else Attempted(After(rows, run[..|run| - 1]), run[|run| - 1])
  }

  /** The requests are handled one after the other. */
  predicate Sequential(run: Run, from: int, now: int) {
    if run == [] then from <= now
    else
      var a := run[|run| - 1];
      Sequential(run[..|run| - 1], from, a.checkedAt) && a.checkedAt <= a.firedAt <= now
  }

  lemma {:induction false} RunChronological(rows: seq<AuthRow>, run: Run, from: int, now: int)
    requires Chronological(rows, from) && Sequential(run, from, now)
    ensures Chronological(After(rows, run), now)
  {
    if run != [] {
      var init, a := run[..|run| - 1], run[|run| - 1];
      RunChronological(rows, init, from, a.checkedAt);
      var before := After(rows, init);
      assert After(rows, run)[..|before|] == before;
    }
  }

  lemma {:induction false} AttemptBound(rows: seq<AuthRow>, a: Attempt, key: Key, t: int)
    requires Chronological(rows, a.checkedAt) && a.checkedAt <= a.firedAt <= t
    requires |Recent(rows, key, t)| <= MAX_LOGIN_ATTEMPTS
    ensures |Recent(Attempted(rows, a), key, t)| <= MAX_LOGIN_ATTEMPTS
  {
    RecentSnoc(rows, a.Row(EventOf(rows, a)), key, t);
    RecentFewer(rows, key, a.checkedAt, t);
  }

  /**
    The bound the throttle exists for: in every sequence of login requests, at every time and for every address and
    client, at most five failures lie in the last minute after the last success.
  */
  lemma {:induction false} AtMostFive(run: Run, from: int, now: int, key: Key)
    requires Sequential(run, from, now)
    ensures |Recent(After([], run), key, now)| <= 5
  {
    if run != [] {
      var init, a := run[..|run| - 1], run[|run| - 1];
      RunChronological([], init, from, a.checkedAt);
      AtMostFive(init, from, a.checkedAt, key);
      RecentFewer(After([], init), key, a.checkedAt, now);
      AttemptBound(After([], init), a, key, now);
    }
  }

  // ---- the rule, read off the rows ----------------------------------------------------------

  /** Row i is a login of the pair, with the given outcome. */
  predicate IsOf(rows: seq<AuthRow>, i: int, event: Event, email: string, ip: string) {
    && 0 <= i < |rows| && rows[i].event == event && rows[i].ip == Some(ip)
    && Lower(rows[i].email) == Lower(email)
  }

  /** The failures of the pair in the last 60 seconds and after every success of the pair. */
  ghost function Counting(rows: seq<AuthRow>, email: string, ip: string, now: int): set<int> {
    set i | 0 <= i < |rows| && IsOf(rows, i, Failed, email, ip) && rows[i].firedAt > now - 60_000_000
            && forall j :: IsOf(rows, j, Login, email, ip) ==> rows[j].firedAt < rows[i].firedAt
  }

  lemma {:induction false} LastSuccessMeans(rows: seq<AuthRow>, email: string, ip: string)
    ensures var success := LastSuccess(rows, KeyOfAttempt(email, ip));
            && (success.None? <==> forall j :: !IsOf(rows, j, Login, email, ip))
            && (success.Some? ==> forall j :: IsOf(rows, j, Login, email, ip) ==> rows[j].firedAt <= success.value)
            && (success.Some? ==> exists j :: IsOf(rows, j, Login, email, ip) && rows[j].firedAt == success.value)
  {
    if rows != [] {
      var init, n := rows[..|rows| - 1], |rows| - 1;
      LastSuccessMeans(init, email, ip);
      assert forall j :: 0 <= j < n ==> (IsOf(init, j, Login, email, ip) <==> IsOf(rows, j, Login, email, ip));
      assert IsOf(rows, n, Login, email, ip) <==> Is(rows[n], Login, KeyOfAttempt(email, ip));
    }
  }

  ghost function FailedIndices(rows: seq<AuthRow>, email: string, ip: string, start: int): set<int> {
    set i | 0 <= i < |rows| && IsOf(rows, i, Failed, email, ip) && rows[i].firedAt > start
  }

  lemma {:induction false} FailedIndicesSnoc(rows: seq<AuthRow>, email: string, ip: string, start: int)
    requires rows != []
    ensures var (init, n) := (rows[..|rows| - 1], |rows| - 1);
            FailedIndices(rows, email, ip, start)
            == FailedIndices(init, email, ip, start)
               + (if Is(rows[n], Failed, KeyOfAttempt(email, ip)) && rows[n].firedAt > start then {n} else {})
  {
    var init, n := rows[..|rows| - 1], |rows| - 1;
    forall i | 0 <= i < n ensures IsOf(init, i, Failed, email, ip) <==> IsOf(rows, i, Failed, email, ip) {
      assert init[i] == rows[i];
    }
    assert IsOf(rows, n, Failed, email, ip) <==> Is(rows[n], Failed, KeyOfAttempt(email, ip));
  }

  lemma {:induction false} FailedCount(rows: seq<AuthRow>, email: string, ip: string, start: int)
    ensures |FailedAfter(rows, KeyOfAttempt(email, ip), start)| == |FailedIndices(rows, email, ip, start)|
  {
    if rows == [] {
      assert FailedIndices(rows, email, ip, start) == {};
    } else {
      var n := |rows| - 1;
      FailedCount(rows[..n], email, ip, start);
      FailedIndicesSnoc(rows, email, ip, start);
      assert n !in FailedIndices(rows[..n], email, ip, start);
    }
  }

  /** Counting from the effective start is counting the last 60 seconds after every success. */
  lemma {:induction false} CountingFrom(rows: seq<AuthRow>, email: string, ip: string, now: int)
    ensures Counting(rows, email, ip, now)
            == FailedIndices(rows, email, ip, EffectiveStart(rows, KeyOfAttempt(email, ip), now))
  {
    LastSuccessMeans(rows, email, ip);
  }

  /** A pair is turned away exactly if five failures count. */
  lemma {:induction false} BlockedMeans(rows: seq<AuthRow>, email: string, ip: string, now: int)
    ensures Check(rows, KeyOfAttempt(email, ip), now).Some? <==> |Counting(rows, email, ip, now)| >= 5
  {
    CountingFrom(rows, email, ip, now);
    FailedCount(rows, email, ip, EffectiveStart(rows, KeyOfAttempt(email, ip), now));
  }

  /** Whatever is tried, no more than five failures ever count. */
  lemma {:induction false} NeverMoreThanFive(run: Run, from: int, now: int, email: string, ip: string)
    requires Sequential(run, from, now)
    ensures |Counting(After([], run), email, ip, now)| <= 5
  {
    var rows, key := After([], run), KeyOfAttempt(email, ip);
    AtMostFive(run, from, now, key);
    CountingFrom(rows, email, ip, now);
    FailedCount(rows, email, ip, EffectiveStart(rows, key, now));
  }

  /** The wait reported: whole seconds until the block ends, but at least one. */
  lemma {:induction false} WaitMeans(rows: seq<AuthRow>, key: Key, now: int)
    requires Chronological(rows, now) && Check(rows, key, now).Some?
    ensures var left := (Until(rows, key, now) - now) / 1_000_000;
            Check(rows, key, now).value == if left < 1 then 1 else left
  {
    WaitReported(rows, key, now);
  }

  /** Failures read in the order of writing are read by time. */
  lemma {:induction false} FailedInTime(rows: seq<AuthRow>, key: Key, start: int, now: int)
    requires Chronological(rows, now)
    ensures var times := FailedAfter(rows, key, start);
            forall i, j :: 0 <= i < j < |times| ==> times[i] <= times[j]
  {
    FailedSorted(rows, key, start, now);
    SortedMeans(FailedAfter(rows, key, start));
  }

  lemma {:induction false} SortedMeans(times: seq<int>)
    requires Sorted(times)
    ensures forall i, j :: 0 <= i < j < |times| ==> times[i] <= times[j]
  {
    if |times| >= 2 {
      SortedMeans(times[..|times| - 1]);
      forall i | 0 <= i < |times| - 1 ensures times[i] <= times[|times| - 1] {
        assert times[..|times| - 1][i] <= times[..|times| - 1][|times| - 2];
      }
    }
  }

  /** The logs meant: rows in the order of time, none of them after now. */
  lemma {:induction false} ChronologicalMeans(rows: seq<AuthRow>, now: int)
    ensures Chronological(rows, now)
            <==> && (forall i :: 0 <= i < |rows| ==> rows[i].firedAt <= now)
                 && forall i, j :: 0 <= i < j < |rows| ==> rows[i].firedAt <= rows[j].firedAt
  {
    if rows != [] {
      var init, n := rows[..|rows| - 1], |rows| - 1;
      ChronologicalMeans(init, rows[n].firedAt);
      assert forall i :: 0 <= i < n ==> init[i] == rows[i];
    }
  }

  /** The condition meant: every request of the pair is decided before the time. */
  lemma {:induction false} BeforeMeans(run: Run, key: Key, time: int)
    ensures Before(run, key, time) <==> forall i :: 0 <= i < |run| && run[i].Key() == key ==> run[i].checkedAt < time
  {
    if run != [] {
      var init, n := run[..|run| - 1], |run| - 1;
      BeforeMeans(init, key, time);
      assert forall i :: 0 <= i < n ==> init[i] == run[i];
    }
  }

  /** The sequences meant: each request is decided after the one before was logged, and logged after its decision. */
  lemma {:induction false} SequentialMeans(run: Run, a: Attempt, from: int, now: int)
    ensures Sequential([], from, now) <==> from <= now
    ensures Sequential(run + [a], from, now)
            <==> Sequential(run, from, a.checkedAt) && a.checkedAt <= a.firedAt <= now
  {
    assert (run + [a])[..|run|] == run;
  }

  /** Addresses are compared without regard to ASCII case; the client is compared as it is. */
  lemma {:induction false} LowerMeans(s: string, i: nat)
    requires i < |s|
    ensures |Lower(s)| == |s|
    ensures 'A' <= s[i] <= 'Z' ==> Lower(s)[i] as int - 'a' as int == s[i] as int - 'A' as int
    ensures !('A' <= s[i] <= 'Z') ==> Lower(s)[i] == s[i]
  {
  }

  /** What one attempt leaves in the log: a blocked one a "Lockout", a good one a "Login", any other a "Failed" row. */
  lemma {:induction false} AttemptLogged(rows: seq<AuthRow>, a: Attempt)
    ensures var blocked := |Counting(rows, a.email, a.ip, a.checkedAt)| >= 5;
            Attempted(rows, a)
            == rows + [AuthRow(if blocked then Lockout else if a.verdict == Ok then Login else Failed,
                               a.email, Some(a.ip), a.firedAt)]
  {
    BlockedMeans(rows, a.email, a.ip, a.checkedAt);
  }

  /** The wait ends when the fifth latest failure is 60 seconds old. */
  lemma {:induction false} UntilMeans(rows: seq<AuthRow>, email: string, ip: string, now: int)
    requires Chronological(rows, now) && Check(rows, KeyOfAttempt(email, ip), now).Some?
    ensures now < Until(rows, KeyOfAttempt(email, ip), now)
    ensures forall t :: t >= now ==>
              (t < Until(rows, KeyOfAttempt(email, ip), now) <==> |Counting(rows, email, ip, t)| >= 5)
  {
    WaitReported(rows, KeyOfAttempt(email, ip), now);
    forall t | t >= now
      ensures t < Until(rows, KeyOfAttempt(email, ip), now) <==> |Counting(rows, email, ip, t)| >= 5
    {
      BlockStands(rows, KeyOfAttempt(email, ip), now, t);
      BlockedMeans(rows, email, ip, t);
    }
  }

  // ---- what a block means -------------------------------------------------------------------

  /** A block lasts until the fifth latest failure is a minute old. */
  function Until(rows: seq<AuthRow>, key: Key, now: int): int
    requires Check(rows, key, now).Some?
  {
    var failed := Recent(rows, key, now);
    failed[|failed| - MAX_LOGIN_ATTEMPTS] + WINDOW
  }

  /** The wait reported: between 1 and 60 seconds, and never more than a second short. */
  lemma {:induction false} WaitReported(rows: seq<AuthRow>, key: Key, now: int)
    requires Chronological(rows, now) && Check(rows, key, now).Some?
    ensures var seconds := Check(rows, key, now).value;
            1 <= seconds <= 60 && now < Until(rows, key, now) < now + (seconds + 1) * 1_000_000
  {
    var failed := Recent(rows, key, now);
    FailedWithin(rows, key, EffectiveStart(rows, key, now), now, |failed| - MAX_LOGIN_ATTEMPTS);
  }

  /** The last five of a sorted list are those above a threshold exactly when the fifth last is. */
  lemma {:induction false} FailedAt(rows: seq<AuthRow>, key: Key, start: int, later: int, now: int)
    requires Chronological(rows, now) && start <= later && |FailedAfter(rows, key, start)| >= MAX_LOGIN_ATTEMPTS
    ensures var failed := FailedAfter(rows, key, start);
            |FailedAfter(rows, key, later)| >= MAX_LOGIN_ATTEMPTS <==> failed[|failed| - MAX_LOGIN_ATTEMPTS] > later
  {
    FailedSuffix(rows, key, start, later, now);
    var failed, fewer := FailedAfter(rows, key, start), FailedAfter(rows, key, later);
    FailedSorted(rows, key, start, now);
    if |fewer| >= MAX_LOGIN_ATTEMPTS {
      FailedWithin(rows, key, later, now, |fewer| - MAX_LOGIN_ATTEMPTS);
    }
  }

  /** Raising the start keeps a suffix; what is cut off is not above it. */
  lemma {:induction false} FailedSuffix(rows: seq<AuthRow>, key: Key, start: int, later: int, now: int)
    requires Chronological(rows, now) && start <= later
    ensures var (failed, fewer) := (FailedAfter(rows, key, start), FailedAfter(rows, key, later));
            && |fewer| <= |failed| && failed[|failed| - |fewer|..] == fewer
            && forall i :: 0 <= i < |failed| - |fewer| ==> failed[i] <= later
  {
    if rows != [] {
      var init, last := rows[..|rows| - 1], rows[|rows| - 1];
      FailedSuffix(init, key, start, later, last.firedAt);
      var failed, fewer := FailedAfter(init, key, start), FailedAfter(init, key, later);
      if Is(last, Failed, key) && start < last.firedAt <= later {
        FailedNone(init, key, later, last.firedAt);
      }
    }
  }

  /** Without a new failure or success of the pair, the block stands exactly until that time. */
  lemma {:induction false} BlockStands(rows: seq<AuthRow>, key: Key, now: int, t: int)
    requires Chronological(rows, now) && now <= t && Check(rows, key, now).Some?
    ensures Check(rows, key, t).Some? <==> t < Until(rows, key, now)
  {
    var start, later := EffectiveStart(rows, key, now), EffectiveStart(rows, key, t);
    FailedAt(rows, key, start, later, now);
    var failed := Recent(rows, key, now);
    FailedWithin(rows, key, start, now, |failed| - MAX_LOGIN_ATTEMPTS);
  }

  lemma {:induction false} LockoutChangesNothing(rows: seq<AuthRow>, r: AuthRow, key: Key, t: int)
    requires !Is(r, Failed, key) && !Is(r, Login, key)
    ensures Recent(rows + [r], key, t) == Recent(rows, key, t) && Check(rows + [r], key, t) == Check(rows, key, t)
  {
    assert (rows + [r])[..|rows|] == rows;
  }

  /** Every request of the pair is decided before the given time; others may come whenever they like. */
  predicate Before(run: Run, key: Key, time: int) {
    run == [] ||
    (var a := run[|run| - 1]; (a.Key() == key ==> a.checkedAt < time) && Before(run[..|run| - 1], key, time))
  }

  lemma {:induction false} SequentialBefore(run: Run, from: int, now: int, key: Key, time: int)
    requires Sequential(run, from, now) && now < time
    ensures Before(run, key, time)
  {
    if run != [] {
      SequentialBefore(run[..|run| - 1], from, run[|run| - 1].checkedAt, key, time);
    }
  }

  /** While a pair is blocked its requests only leave "Lockout" rows, which count for nothing. */
  lemma {:induction false} BlockKept(rows: seq<AuthRow>, run: Run, key: Key, now: int, checkedAt: int, t: int)
    requires Chronological(rows, now) && Check(rows, key, now).Some?
    requires Sequential(run, now, checkedAt) && Before(run, key, Until(rows, key, now)) && checkedAt <= t
    ensures Recent(After(rows, run), key, t) == Recent(rows, key, t)
    ensures Check(After(rows, run), key, t) == Check(rows, key, t)
    decreases |run|
  {
    if run != [] {
      var init, a := run[..|run| - 1], run[|run| - 1];
      SequentialOrder(init, now, a.checkedAt);
      BlockStands(rows, key, now, a.checkedAt);
      BlockKept(rows, init, key, now, a.checkedAt, a.checkedAt);
      BlockKept(rows, init, key, now, a.checkedAt, t);
      LockoutChangesNothing(After(rows, init), a.Row(EventOf(After(rows, init), a)), key, t);
    }
  }

  lemma {:induction false} SequentialOrder(run: Run, from: int, now: int)
    requires Sequential(run, from, now)
    ensures from <= now
  {
    if run != [] {
      SequentialOrder(run[..|run| - 1], from, run[|run| - 1].checkedAt);
    }
  }

  /**
    Once a pair is blocked, no sequence of requests, whoever sends them, shortens the block before the fifth latest
    failure is a minute old; and nothing but a request of the pair itself after that time can prolong it.
  */
  lemma {:induction false} BlockIsExact(rows: seq<AuthRow>, run: Run, key: Key, now: int, t: int)
    requires Chronological(rows, now) && Check(rows, key, now).Some? && Sequential(run, now, t)
    ensures t < Until(rows, key, now) ==> Check(After(rows, run), key, t).Some?
    ensures (t >= Until(rows, key, now) && Before(run, key, Until(rows, key, now))) ==>
              Check(After(rows, run), key, t).None?
  {
    var until := Until(rows, key, now);
    SequentialOrder(run, now, t);
    BlockStands(rows, key, now, t);
    if t < until {
      SequentialBefore(run, now, t, key, until);
    }
    if Before(run, key, until) {
      BlockKept(rows, run, key, now, t, t);
    }
  }

  /** A pair that waits a second longer than it was told to is let through. */
  lemma {:induction false} OpenAfterWait(rows: seq<AuthRow>, run: Run, key: Key, now: int, t: int)
    requires Chronological(rows, now) && Check(rows, key, now).Some?
    requires Sequential(run, now, t) && Before(run, key, Until(rows, key, now))
    requires t >= now + (Check(rows, key, now).value + 1) * SECOND
    ensures Check(After(rows, run), key, t).None?
  {
    WaitReported(rows, key, now);
    BlockIsExact(rows, run, key, now, t);
  }
}
