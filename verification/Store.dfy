/** The database of the cast engine as one value, and the service calls on it, each one atomic transaction. */
module Store {
  import opened Positions
  import opened Tables
  import opened BookingLogs
  import opened SaveItem
  import opened ApplyChanges
  import opened CastSave
  import opened SetupChange
  import opened Notices
  import opened NoticeSteps

  /** The lookup tables instruments, voices and choirjobs, each listed by its admin-managed order. */
  datatype Catalog = Catalog(instruments: seq<ElementId>, voices: seq<ElementId>, choirjobs: seq<ElementId>)

  type RequestKey = (PerfId, UserId)

  datatype State = State(
    now: int,                          // time of the last transaction
    schedule: map<PerfId, int>,        // performances and when they take place
    catalog: Catalog,
    quantities: Quantities,            // performance_positions
    tables: CastTables,                // bookings and booking_logs
    requests: map<RequestKey, bool>,   // booking_requests; true once rejected (notbooked_at is set)
    verified: map<UserId, bool>,       // users, and whether they have a verified e-mail address
    qualified: set<(UserId, PositionKey)>)  // user_positions

  const INITIAL := State(0, map[], Catalog([], [], []), map[], CastTables([], []), map[], map[], {})

  // ---- the setup of a performance -----------------------------------------------------------

  function KeysOfKind(kind: PositionType, ids: seq<ElementId>): (keys: seq<PositionKey>)
    ensures |keys| == |ids|
    ensures forall i :: 0 <= i < |ids| ==> keys[i] == PositionKey(kind, ids[i])
  {
    if ids == [] then [] else KeysOfKind(kind, ids[..|ids| - 1]) + [PositionKey(kind, ids[|ids| - 1])]
  }

  /** Processing order: instruments, voices, choirjobs, each by its own order. */
  function Order(catalog: Catalog): seq<PositionKey> {
    KeysOfKind(Instruments, catalog.instruments) + KeysOfKind(Voices, catalog.voices)
      + KeysOfKind(Choirjobs, catalog.choirjobs)
  }

  /** The positions of one performance among the given ones, with their quantities. */
  function ItemsAmong(keys: seq<PositionKey>, qs: Quantities, p: PerfId): seq<SetupItem> {
    if keys == [] then []
    else
      var key := keys[|keys| - 1];
      ItemsAmong(keys[..|keys| - 1], qs, p) + (if Slot(p, key) in qs then [SetupItem(key, qs[Slot(p, key)])] else [])
  }

  function GetSetup(st: State, p: PerfId): seq<SetupItem> {
    ItemsAmong(Order(st.catalog), st.quantities, p)
  }

  // ---- booking status -----------------------------------------------------------------------

  datatype Status =
    | NotBookable
    | Bookable
    | Requested
    | Standby(position: PositionKey)
    | Booked(position: PositionKey)
    | Rejected

  /** The user is qualified for some position the performance needs. */
  predicate Qualified(st: State, p: PerfId, u: UserId) {
    exists slot | slot in st.quantities :: slot.perf == p && (u, slot.key) in st.qualified
  }

  function StatusOf(st: State, p: PerfId, u: UserId): Status {
    if !Qualified(st, p, u) then NotBookable
    else
      match BookingOf(st.tables.bookings, p, u)
      case Some(b) =>
        if b.order < QuantityAt(st.quantities, b.slot) then Booked(b.slot.key) else Standby(b.slot.key)
      case None =>
        if (p, u) in st.requests then (if st.requests[(p, u)] then Rejected else Requested) else Bookable
  }

  /** As shown: the status of a past performance is hidden unless asked for. */
  function StatusShown(st: State, p: PerfId, u: UserId, now: int, keepPast: bool): Status
    requires p in st.schedule
  {
    if st.schedule[p] < now && !keepPast then NotBookable else StatusOf(st, p, u)
  }

  // ---- service calls ------------------------------------------------------------------------

  datatype Outcome = Done | NotFound | InPast | Invalid | Aborted | InUse | AlreadyExists

  /** notbooked_at after a save: rejected are exactly the listed users who ended up without a booking. */
  function ApplyNotbooked(requests: map<RequestKey, bool>, p: PerfId, ids: seq<UserId>,
                          rows: seq<Booking>): map<RequestKey, bool> {
    map k | k in requests :: if k.0 == p then k.1 in ids && BookingOf(rows, p, k.1).None? else requests[k]
  }

  function SaveCast(st: State, p: PerfId, payload: Payload, notBooked: seq<UserId>, now: int): (State, Outcome) {
    if p !in st.schedule then (st, NotFound)
    else if st.schedule[p] < now then (st, InPast)
    else
      var changes := SaveChanges(p, GetSetup(st, p), payload);
      if !AllAcceptable(changes, st.verified.Keys) then (st, Aborted)
      else
        var tables := Run(st.tables, changes, now);
        (st.(now := now, tables := tables, requests := ApplyNotbooked(st.requests, p, notBooked, tables.bookings)),
         Done)
  }

  const DAY := 86400

  /** Midnight at the start of the day after now. */
  function TomorrowStart(now: int): int {
    (now / DAY + 1) * DAY
  }

  predicate ValidSetup(st: State, items: seq<SetupItem>) {
    NoDup(Keys(items)) && forall i :: 0 <= i < |items| ==>
                            items[i].key in Order(st.catalog) && 1 <= items[i].quantity <= 99
  }

  function Desired(items: seq<SetupItem>): map<PositionKey, nat> {
    if items == [] then map[] else Desired(items[..|items| - 1])[items[|items| - 1].key := items[|items| - 1].quantity]
  }

  /** performance_positions after _sync_positions: for this performance exactly what is desired. */
  function Synced(qs: Quantities, p: PerfId, desired: map<PositionKey, nat>): Quantities {
    (map slot | slot in qs && slot.perf != p :: qs[slot]) + (map key | key in desired :: Slot(p, key) := desired[key])
  }

  /** The positions that are configured now and not desired any more. */
  function RemovedKeys(qs: Quantities, p: PerfId, desired: map<PositionKey, nat>): set<PositionKey> {
    set slot | slot in qs && slot.perf == p && slot.key !in desired :: slot.key
  }

  predicate Enumerates(list: seq<PositionKey>, keys: set<PositionKey>) {
    NoDup(list) && (forall i :: 0 <= i < |list| ==> list[i] in keys) && forall k :: k in keys ==> k in list
  }

  function Updated(st: State, p: PerfId, schedule: int, items: seq<SetupItem>, removed: seq<PositionKey>,
                   now: int): State {
    var qs := Synced(st.quantities, p, Desired(items));
    var setup := ItemsAmong(Order(st.catalog), qs, p);
    st.(now := now, schedule := st.schedule[p := schedule], quantities := qs,
        tables := Reconcile(st.tables, p, removed, setup, st.quantities, now))
  }

  /** removed: the order in which the removed positions happen to be purged. */
  function UpdatePerformance(st: State, p: PerfId, schedule: int, items: seq<SetupItem>, removed: seq<PositionKey>,
                             now: int)
    : (State, Outcome)
  {
    if p !in st.schedule then (st, NotFound)
    else if st.schedule[p] < now then (st, InPast)
    else if schedule < TomorrowStart(now) || !ValidSetup(st, items) then (st, Invalid)
    else (Updated(st, p, schedule, items, removed, now), Done)
  }

  function Created(st: State, p: PerfId, schedule: int, items: seq<SetupItem>, now: int): State {
    st.(now := now, schedule := st.schedule[p := schedule], quantities := Synced(st.quantities, p, Desired(items)))
  }

  function CreatePerformance(st: State, p: PerfId, schedule: int, items: seq<SetupItem>, now: int): (State, Outcome) {
    if schedule < TomorrowStart(now) || !ValidSetup(st, items) then (st, Invalid)
    else (Created(st, p, schedule, items, now), Done)
  }

  predicate HasBookingsOrRequests(st: State, p: PerfId) {
    || (exists b :: b in st.tables.bookings && b.slot.perf == p)
    || (exists k :: k in st.requests && k.0 == p)
  }

  /** Positions cascade away; the log survives, orphaned. */
  function DeletePerformance(st: State, p: PerfId, now: int): (State, Outcome) {
    if p !in st.schedule then (st, NotFound)
    else if st.schedule[p] < now then (st, InPast)
    else if HasBookingsOrRequests(st, p) then (st, InUse)
    else
      (st.(now := now, schedule := st.schedule - {p},
           quantities := map slot | slot in st.quantities && slot.perf != p :: st.quantities[slot],
           tables := st.tables.(logs := Orphaned(st.tables.logs, p))), Done)
  }

  /** The list a position keeps when one user leaves it. */
  function CastWithout(rows: seq<Booking>, slot: Slot, u: UserId): seq<CastEntry> {
    Entries(SortByOrder(WithoutUsers(At(rows, slot), slot.perf, {u})))
  }

  function CancelBooking(t: CastTables, qs: Quantities, p: PerfId, u: UserId, now: int): CastTables {
    match BookingOf(t.bookings, p, u)
    case None => t
    case Some(b) => SaveCastItem(t, b.slot, QuantityAt(qs, b.slot), Some(CastWithout(t.bookings, b.slot, u)), None, now)
  }

  /** The self-service toggle: the server decides from the current status what the click means. */
  function Toggle(st: State, p: PerfId, u: UserId, now: int): (State, Outcome) {
    if p !in st.schedule then (st, NotFound)
    else if st.schedule[p] < now then (st, InPast)
    else
      match StatusOf(st, p, u)
      case NotBookable => (st.(now := now), Done)
      case Bookable =>
        if (p, u) in st.requests then (st, AlreadyExists)
        else (st.(now := now, requests := st.requests[(p, u) := false]), Done)
      case _ =>
        (st.(now := now, requests := st.requests - {(p, u)},
             tables := CancelBooking(st.tables, st.quantities, p, u, now)), Done)
  }

  /** user_positions after sync_user_positions: for this user exactly the given positions. */
  function Requalified(qualified: set<(UserId, PositionKey)>, u: UserId, keys: set<PositionKey>)
    : set<(UserId, PositionKey)>
  {
    (set q | q in qualified && q.0 != u) + (set k | k in keys :: (u, k))
  }

  // ---- scheduled jobs -----------------------------------------------------------------------

  predicate Upcoming(st: State, p: PerfId, now: int) {
    p in st.schedule && st.schedule[p] > now
  }

  predicate Mailable(st: State, u: UserId) {
    u in st.verified && st.verified[u]
  }

  predicate Marks(st: State, r: LogRow, now: int) {
    && r.perf.Some? && r.user.Some? && Upcoming(st, r.perf.value, now) && Mailable(st, r.user.value)
    && Decision(st.tables.logs, r.perf.value, r.user.value) == Some(r)
  }

  /** The rows the job notifies about: those decided on for the mailable users of the upcoming performances. */
  function MarkedIds(st: State, now: int): set<nat> {
    set r | r in st.tables.logs && Marks(st, r, now) :: r.id
  }

  function Notify(st: State, now: int): State {
    st.(now := now, tables := st.tables.(logs := Marked(st.tables.logs, MarkedIds(st, now), now)))
  }

  function PurgeStaleRequests(st: State, now: int): State {
    st.(now := now,
        requests := map k | k in st.requests && !(k.0 in st.schedule && st.schedule[k.0] < now) :: st.requests[k])
  }
}
