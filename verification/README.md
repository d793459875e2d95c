# Verification of the booking engine and its companions

A Dafny model of the stateful core of the choir and orchestra management backend: who is booked on which performance,
what the log says about it and what users are told; the login throttle; the session lifecycle; the mail kill switch;
and the ordered lookup tables. `dafny verify dfyconfig.toml` checks everything.

## What is modelled

**The cast engine.** A performance needs positions (instruments, voices, choir jobs), each in some quantity. A booking
puts one user on one position under an order number. Whether it is regular or standby is not stored: it is regular if
its order is below the quantity. Every change of a cast runs through one engine that compares the old list of a position
with the new one, appends "book" and "unbook" rows to a log, and recreates the position's bookings. A job reads the log
and tells users what changed.

The tables are lists of rows (module `Tables`): DELETE is a filter, INSERT appends, ORDER BY is a stable sort. Module
`Store` defines each service call as a function from state to state, one call being one transaction. Module `Database`
is a class whose fields are the tables and whose methods run statement by statement, with the loops of the services;
each method is proved to have exactly the effect of the function. Everything else is about these functions:

| file | content |
|---|---|
| `Positions`, `Tables` | the exclusive arc of position columns; rows, queries, unique indexes, gap-free orders |
| `CastDiff`, `BookingLogs`, `SaveItem` | the diff, the log, rewriting one position |
| `ApplyChanges`, `CastSave`, `SetupChange`, `SelfService` | transactions over a whole performance: saving a cast, reconciling a changed setup, cancelling |
| `Notices`, `NoticeSteps`, `Jobs` | what the booking-status job concludes from the log, and what it does to it |
| `Store`, `Database`, `FormData`, `Billing` | the service calls, as functions and as methods; the bill |
| `Bookability`, `UsersStatus`, `CalendarStatus`, `Status` | who qualifies; the two status evaluators, neither of which uses the other; and that they agree |
| `Regulars` | three notions of "regular", and when they mean the same users |
| `Invariant`, `Preservation`, `Assumptions`, `Counterexamples` | the invariant, what keeps it, what a save needs for that, and inputs that show why |
| `Runs`, `QueueOrder`, `ToggleMachine` | theorems over whole histories |
| `Addressees` | whom a step will write about, told before it runs |
| `Requests`, `LogContents`, `Answers`, `Telling` | what each call answers, stores, logs and tells, in terms of the request and the rows alone |
| `Histories` | concrete histories: one that ends well, and one for each way the code can go wrong |
| `LoginThrottle`, `Sessions`, `Recipients` and `KillSwitch`, `OrderedTable` | the other four state machines, each self-contained |

**What the functions mean.** A theorem about these functions says no more than their definitions do. So what each call
does is stated once more without them, on times, rows and the lists of the request: `Requests` and `LogContents` for a
save, `Answers` for the other calls, `Telling` for the job, `Status.BookedMeans` and its neighbours for the status, and
the lemmas named ...Means or ...Answers in the self-contained modules, with the constants written as numbers.

**The invariant.** `Invariant.Sound` holds after every history at all, whatever callers do (`Runs.RunSound`): foreign
keys and unique indexes hold; bookings stand only on positions of the setup, those of a position in ascending order;
nobody is booked and rejected; the log is stamped in order. `Invariant.Inv` adds three things: the orders of each
position are 0, 1, ..., n-1; the last log row about a user is "book" exactly if the user holds a regular slot; the
notices given to a user alternate and their times increase.

**What the rest depends on.** Two things in the code can break one of these three, and each has its exact condition, a
reachable state that shows it, and a name for the histories without it:

- *Saves.* A save does not check that its payload lists a user only once, nor that nobody moves to a position processed
  earlier. The first leaves a gap (`Histories.GapInReachableState`), the second promotes a user without a log row
  (`Histories.SilentInReachableState`). `Invariant.SaveCastInv` gives the exact condition, which can be evaluated before
  the save (`Invariant.GoodSave`). The two usual assumptions imply it (`Assumptions.AssumptionsSuffice`). A history whose
  accepted saves all meet it is `Runs.Careful`; one whose accepted saves at least leave no gap, `Runs.AllTidy`.
- *Ties.* To find the last notice given, the job asks for the latest `created_at`, and `max` picks the first among
  equals. If two notices about a user carry the same time it may take the wrong one and overlook a notice that is due
  (`Histories.TiedHistoryMisleads`). `Notices.DecisionExact` gives the exact condition on the log, and `Runs.StepNotices`
  the exact condition on a step: it must not write, at the very time of the last notice, about the user told
  (`Runs.OnTime`). Whom it will write about can be told before it runs (`Addressees.OnTimeExact`), and a step later than
  everything before is always on time. A history of such steps is `Runs.Punctual`.

`Runs.Possible` histories are subject to neither; `Runs.Legal` ones to both. Each theorem asks for what it needs. After
any possible history nobody is booked and rejected, and without a save queues keep their order. After a tidy one the
notions of a regular user are one and every bill adds up. After a careful one, ties or not, the log agrees with the
bookings. After a punctual one notices alternate and repeat the log. Only after a legal one does everybody get to know
the truth. Of steps in general only this is assumed (`Runs.Enabled`): time does not run backwards, a new performance gets
a fresh id, a position in use is not deleted, the user who toggles is registered, and the removed keys are enumerated in
some order.

**Reading the code.** These points of the code are easy to miss and are modelled as they are:

- A list that names a user twice violates the unique index when the position is flushed, and the whole save is rolled
  back (app/db/models/booking.py:77).
- Sessions do not flush automatically (app/db/database.py:30). When a setup is reconciled and no position was removed,
  positions just added are not yet read. The model saves back every position of the setup, which comes to the same
  (`Assumptions.NewPositionsDoNotMatter`).
- Removed positions are purged in the order of a Python set. The model takes any order, and no result depends on it.
- The rows of one transaction share their `created_at`, and the query of the job has no ORDER BY. The model lets rows
  arrive in any order that keeps rows of equal time in the order they were written, and the job's stable sort makes the
  rest irrelevant (`Jobs.DecisionOnArrival`). For two transactions at the same time that order is assumed, not promised.
- The documentation of the session table says that `expires_at` holds the expiry of the refresh token; the services
  never write or read that column and compare `created_at` instead. The model follows the services.
- The idle check never reads the creation time of a session; the bound on late requests comes from the tokens alone.

## Model

| member | source | states |
|---|---|---|
| Positions.KwargsKeyBijection | app/services/position_types.py:39-61 | `position_kwargs` and `position_key` are inverse to each other on exactly the rows the CHECK constraint admits |
| Positions.ColumnOfKind | app/services/position_types.py:39-61 | the column written is the one named after the kind |
| Positions.KeyByColumn | app/services/position_types.py:39-61 | and the key read is of the kind its column is named after |
| CastDiff.DiffCastTransitions | app/services/booking_service.py:901-936 | the two loops produce the list `Diff`, for any casts and quantities |
| CastDiff.DiffVerdict | app/services/booking_service.py:901-936 | soundness and completeness: each user gets at most one transition, and it is "book" for who became regular and "unbook" for who dropped out, lost a regular slot or is new on standby |
| CastDiff.ReplayDiff | app/services/booking_service.py:901-936 | replaying the transitions on the old regular users yields exactly the new regular users |
| CastDiff.DiffSameCast | app/services/booking_service.py:1117-1157 | the same cast under another quantity logs exactly the entries between the two quantities, promoted or demoted |
| CastDiff.DiffRemoved | app/services/booking_service.py:901-936 | taking one entry out unbooks it and books the first standby exactly if the entry was regular and a standby exists |
| SaveItem.PurgeIsEmptyCast | app/services/booking_service.py:976-990 | a position missing from the payload is treated exactly like one saved with an empty list |
| SaveItem.RecastAt | app/services/booking_service.py:1007-1026 | the saved position holds exactly the new list numbered from 0; any other position only loses the users on it, in place |
| SaveItem.RecastBookingOf | app/services/booking_service.py:1007-1026 | one user's booking afterwards: its new place, nothing, or what it was |
| SaveItem.AgreeStayed | app/services/booking_service.py:939-1033 | for a user who stays on the position the log stays right exactly if it was not promoted silently |
| ApplyChanges.RunAtChanged | app/services/booking_service.py:1051-1072 | after a whole save a position holds its list minus the users listed again later |
| ApplyChanges.RunBookingListed | app/services/booking_service.py:1051-1072 | the last position that lists a user decides where it is booked, under its index there |
| ApplyChanges.RunAgree | app/services/booking_service.py:1036-1072 | if log and bookings agreed about a user before, they agree after any such transaction if and only if the last list naming the user did not promote it silently |
| CastSave.SaveGapFree | app/services/booking_service.py:1007-1072 | orders stay gap-free if and only if what each list loses to later lists is its own end |
| CastSave.SilentlyPromotedIff | app/services/booking_service.py:952-1072 | the silent promotion, restated as a condition on the bookings before the save and the payload alone |
| CastSave.NoBackwardMoveNotSilent | app/services/booking_service.py:952-1072 | without a move to an earlier position no promotion is silent |
| Invariant.SaveCastKeeps | app/services/booking_service.py:1105-1114 | what a save keeps whatever the payload and the state it starts from: references, bookings only on the setup and in ascending order, nobody booked and rejected, a log stamped in order |
| Invariant.SaveCastInv | app/services/booking_service.py:1105-1114 | a save keeps the invariant if and only if the payload leaves no gap and promotes nobody silently, and the save is on time |
| Assumptions.AssumptionsSuffice | app/services/booking_service.py:1036-1072 | a disjoint payload without backward moves meets that condition |
| Assumptions.SaveStoresPayload | app/services/booking_service.py:1105-1114 | a disjoint save ends with exactly the payload cut down to the setup, orders 0 to n-1, other performances untouched, whatever gaps there were before |
| Assumptions.LastListingWins | app/services/booking_service.py:1017-1033 | for any payload the position processed last wins a user listed twice; unlisted users lose their booking |
| Assumptions.EmptyPositionUntouched | app/services/booking_service.py:1140-1157 | saving no cast where there is none changes nothing |
| Assumptions.NewPositionsDoNotMatter | app/services/booking_service.py:1140-1157 | with nothing removed, reconciling the whole new setup gives the same rows and log as reconciling the positions configured before |
| Requests.SaveAnswer | app/services/booking_service.py:1036-1114 | what a save answers: not found, too late, a list that counts names a user twice or an unknown one, or done; anything but done changes nothing |
| Requests.SaveStoresRequest | app/services/booking_service.py:1052-1072 | a request that lists nobody at two positions is stored as it is: the last list given for a position becomes its rows, from order 0 on; a position without a list is emptied |
| Requests.SaveBooks | app/services/booking_service.py:1036-1072 | a user listed at several positions is booked on the one processed last, at its place in the list |
| Requests.SaveDrops | app/services/booking_service.py:1036-1072 | a user no list of the setup names has no booking afterwards |
| Requests.OrderMeans | app/services/booking_service.py:1043-1051 | processing order is instruments, voices, choirjobs, each in its own order |
| Requests.SaveElsewhere | app/services/booking_service.py:1007-1016 | bookings of other performances stay |
| Requests.SaveRejects | app/services/booking_service.py:1075-1102 | rejected afterwards are, among those who had asked, exactly the listed ones without a booking; requests for other performances stay |
| Requests.RequestSuffices | app/services/booking_service.py:1036-1114 | a request that lists nobody at two positions, and nobody at a position processed before the one it is booked on, leaves no gap and a faithful log |
| LogContents.SaveLogs | app/services/booking_service.py:901-1033 | the log keeps its rows, and each row a save adds says "book" for a place within the quantity of a list, "unbook" for one beyond it, or unbooks somebody booked there before; with the right fee, position, performance and time |
| Counterexamples.DoubleListingLeavesGap | app/services/booking_service.py:1017-1033 | a concrete save with a user listed twice leaves a position with order 1 and nobody at 0 |
| Counterexamples.BackwardMoveIsSilent | app/services/booking_service.py:952-966 | a concrete disjoint save with a backward move makes a standby regular without a "book" row |
| Histories.GapInReachableState | app/services/booking_service.py:1017-1033 | a legal history, and an accepted save after it that leaves a position with nobody at order 0 |
| Histories.SilentInReachableState | app/services/booking_service.py:952-966 | a legal history, and an accepted save after it that makes the log disagree with the bookings |
| Counterexamples.EqualTimesMislead | app/services/booking_jobs.py:84-101 | rows with equal transaction times on which the job takes the wrong notice for the last one and overlooks one that is due |
| Histories.TiedHistoryMisleads | app/services/booking_jobs.py:84-101 | a history of accepted saves and runs of the job at whose end a regular user is due a notice and the job stays silent |
| Preservation.SyncExact | app/services/performance_service.py:263-312 | after `_sync_positions` the setup is exactly the desired one; removed keys are the old ones not desired |
| SetupChange.ReconcileAt | app/services/booking_service.py:1117-1157 | reconciling empties removed positions and leaves every other cast row for row as it was |
| SetupChange.ReconcileRows | app/services/booking_service.py:1117-1157 | the rows of every position after reconciling, whatever gaps there were before: kept casts are numbered from 0 |
| SetupChange.StandingLog | app/services/booking_service.py:1117-1157 | the log rows a setup change appends, exactly |
| SetupChange.ReconcileAgree | app/services/booking_service.py:1117-1157 | a setup change keeps log and bookings in agreement about every user, with no condition on the setup |
| Preservation.UpdateExact | app/services/performance_service.py:899-932 | setup, rows and log after a whole update, exactly, from any sound state |
| Answers.UpdateAnswer | app/services/performance_service.py:899-932 | what an update answers: not found, too late, a date before tomorrow or a bad setup, or done; and what it leaves alone |
| Answers.CreateAnswer | app/services/performance_service.py:873-896 | what creating a performance answers and leaves alone |
| Answers.SetupMeans | app/services/performance_service.py:263-312 | the setup stored is for this performance the one asked for, for others what it was |
| Answers.DeleteAnswer | app/services/performance_service.py:935-965 | a performance is deleted if it is to come, nobody is booked on it and nobody has asked for it |
| Answers.DeleteRows | app/services/performance_service.py:955-965 | its positions go with it, its log rows lose their reference, all others stay |
| Preservation.UpdateInv | app/services/performance_service.py:899-932 | an update keeps the invariant if and only if it is on time, with no condition on the setup |
| Preservation.CreateInv | app/services/performance_service.py:873-896 | so does creating a performance |
| Preservation.DeleteInv | app/services/performance_service.py:955-965 | so does deleting one, which orphans its log rows |
| SelfService.CancelLog | app/services/booking_service.py:1206-1243 | a cancellation logs one "unbook", and one "book" for the first standby if and only if the canceller stood within the quantity in the list and there is one; nothing else; gaps or not |
| SelfService.CancelLogByOrder | app/services/booking_service.py:1206-1243 | from gap-free orders: if and only if the canceller was regular by its stored order |
| SelfService.CancelAt | app/services/booking_service.py:1206-1243 | every other position is untouched; on the position left the others keep their order and are renumbered without gaps |
| SelfService.CancelRows | app/services/booking_service.py:1206-1243 | the same whatever gaps there were before: the rows of every position |
| SelfService.CancelEach | app/services/booking_service.py:1206-1243 | and user by user |
| Preservation.CancelBookingOf | app/services/booking_service.py:1206-1243 | user by user: the canceller's booking is gone, those behind it move up by one |
| Preservation.ToggleInv | app/services/booking_service.py:1283-1307 | the toggle keeps the invariant if and only if it is on time |
| ToggleMachine.ToggleTransitions | app/services/booking_service.py:1246-1307 | the status machine of the toggle, from any sound state; the already-exists error is unreachable |
| ToggleMachine.TwoTogglesRestore | app/services/booking_service.py:1283-1307 | requesting and withdrawing restores the whole state |
| ToggleMachine.CancelledOthers | app/services/booking_service.py:1206-1243 | a cancellation changes nobody else's status, except that the first standby becomes booked when a regular user cancels |
| Answers.ToggleAnswer | app/services/booking_service.py:1246-1307 | what the toggle answers, and does to the requests |
| Answers.ToggleCancels | app/services/booking_service.py:1206-1243 | a booked user who toggles has no booking on the performance afterwards |
| FormData.SortAt | app/services/booking_service.py:581-641 | one ordered query bucketed by position gives each position's own ordered list |
| FormData.BucketByPosition | app/services/booking_service.py:581-641 | the bucketing loop computes these lists |
| Bookability.IsBookableMeans | app/services/user_position_service.py:73-83 | the type-by-type intersections ask exactly whether the user holds a position the performance needs |
| UsersStatus.SetupKeys | app/services/performance_service.py:402-455 | given the foreign keys `get_setup` loses no position row |
| UsersStatus.StatusOfUsers | app/services/booking_service.py:327-425 | many users on one performance: each gets the status `StatusShown` defines |
| CalendarStatus.StatusOnPerformances | app/services/booking_service.py:428-575 | one user on many performances: the same status, performance by performance |
| Status.EvaluatorsAgree | app/services/booking_service.py:327-575 | the two evaluators, each with its own dictionaries, loops and branches, agree wherever both are asked, for every database, clock and flag |
| Status.HiddenMeans | app/services/booking_service.py:327-575 | not bookable is shown exactly if the performance is past and past ones are not asked for, or the user holds none of its positions |
| Status.BookedMeans | app/services/booking_service.py:398-417 | otherwise booked or standby exactly if a booking row of the user exists, by its order against the quantity stored for its position, with that position |
| Status.RequestMeans | app/services/booking_service.py:418-424 | otherwise rejected, requested or bookable exactly if the request row is marked, unmarked or missing |
| Regulars.NotionsExact | app/services/booking_service.py:398-403 | on a position, stored order and list index pick the same regular users if and only if the last entry of the list cut off at the quantity has an order below it; gaps or not |
| Regulars.RegularNotions | app/services/booking_service.py:398-403 | then stored order, list index and truncated list all pick the same users; gap-free orders are more than enough |
| Runs.RegularAlways | app/services/booking_service.py:398-403 | so after every history without a save that leaves a gap, whatever became of log and notices |
| Jobs.LatestUnnotifiedEntries | app/services/booking_jobs.py:52-101 | the grouping and deciding loops compute, per performance and user, the decision on that pair's rows |
| Jobs.BundleByUser | app/services/booking_jobs.py:155-157 | the entries of one user are bundled, none lost |
| Notices.DecisionExact | app/services/booking_jobs.py:84-101 | the job decides right about a user, telling of the latest row exactly if a notice is due, if and only if the notice it takes for the last one says what the last one said |
| Jobs.DecisionOnArrival | app/services/booking_jobs.py:52-101 | in whatever order the rows arrive, the decision is the one on the log in the order of writing |
| Jobs.DecisionIsDue | app/services/booking_jobs.py:52-101 | the two together: the exact condition for the decision on the rows as they arrive |
| Telling.NotifyRow | app/services/booking_jobs.py:123-238 | row by row of the log: the job marks a row exactly if its performance is still to come, its user has a verified address, and it is the latest about both, untold, and news to the user |
| Telling.NotifyOnly | app/services/booking_jobs.py:129-139 | in any state: only rows about performances still to come and users with a verified address are marked |
| Telling.LoggedInMeans | app/services/booking_jobs.py:84-101 | "the log says booked" is about the latest row of a user and performance |
| Telling.ToldBookedMeans | app/services/booking_jobs.py:84-101 | "told booked" is about the latest row told |
| NoticeSteps.ExtendsNoticesOk | app/services/booking_jobs.py:84-101 | a transaction keeps the notices alternating in time if and only if it does not write about a user at the time of the last notice to it |
| NoticeSteps.MarkedTold | app/services/booking_jobs.py:198-235 | a run of the job adds to what a user was told at most its latest row, and only if it decided on that row |
| Preservation.NotifyInv | app/services/booking_jobs.py:123-238 | the job keeps the invariant |
| Preservation.PurgeStaleSound | app/services/booking_jobs.py:35-49 | purging the requests of past performances keeps soundness and the invariant |
| Answers.PurgeMeans | app/services/booking_jobs.py:35-49 | requests are dropped exactly for performances that are over; nothing else changes |
| Runs.StepSound | app/services/booking_service.py:1036-1307 | every service call, job and administrative change keeps the database sound, with no condition on payloads or times |
| Runs.RunSound | app/services/booking_service.py:1036-1307 | so it is sound after every history |
| Runs.StepNotices | app/services/booking_service.py:1036-1307 | a step keeps the notices alternating in time if and only if it is on time |
| Addressees.StepWrites | app/services/booking_service.py:901-1307 | whom a step adds log rows about, in terms of the state before it: those the diff judges for a save, those between the quantities or on removed positions for a setup change, the canceller and who moves up for a cancellation |
| Addressees.OnTimeExact | app/services/booking_jobs.py:84-101 | a step is on time if and only if all of these were told everything before now |
| Addressees.LaterIsOnTime | app/services/booking_jobs.py:84-101 | a step later than everything before is on time |
| Runs.StepInv | app/services/booking_service.py:1036-1307 | a step keeps the full invariant if and only if it is on time and no bad save |
| Runs.RunInv | app/services/booking_service.py:1036-1307 | so it holds after every legal history |
| Runs.StepGapFree | app/services/booking_service.py:1036-1307 | a step keeps the orders gap-free if and only if it is not an accepted save that leaves a gap; no condition on log or times |
| Runs.RunGapFree | app/services/booking_service.py:1036-1307 | so they are gap-free after every history without such a save |
| Runs.StepFaithful | app/services/booking_service.py:901-1307 | from gap-free orders a step keeps the log faithful if and only if it is not an accepted save that promotes somebody silently; whatever the time |
| Runs.LogFaithful | app/services/booking_service.py:901-1072 | after every history of good saves, ties or not, the last log row about a user is "book" if and only if it holds a booking with order below the quantity |
| Runs.NeverBookedAndRejected | app/services/booking_service.py:1075-1102 | after no history at all is a user booked and rejected |
| Runs.EndToEnd | app/services/booking_jobs.py:123-238 | right after the job, at the end of any legal history, the last thing told to each user with a verified address about each upcoming performance is "book" exactly if it holds a regular slot |
| Runs.NotifyTellsLog | app/services/booking_jobs.py:123-238 | in any state whose notices alternate in time, whatever the bookings: right after the job everybody has been told what the log says, and nobody is due a notice |
| Runs.ToldWhatIsLogged | app/services/booking_jobs.py:123-238 | so at the end of any punctual history, bad saves included |
| Runs.NotifyTellsTruth | app/services/booking_jobs.py:123-238 | and if the log is faithful, everybody has been told the truth |
| Runs.NoticesAlternate | app/services/booking_jobs.py:84-101 | after every punctual history, bad saves included, the notices to a user about a performance alternate, starting with "book" |
| Runs.NotifyTwice | app/services/booking_jobs.py:123-238 | running the job again with no change in between marks nothing, in any state with a log stamped in order |
| QueueOrder.QueueOnlyShrinks | app/services/booking_service.py:1117-1243 | over any history without a save, from any sound state, each cast list stays a subsequence of what it was |
| QueueOrder.NobodyOvertakes | app/services/booking_service.py:1117-1243 | of two users still in line the one in front was in front before |
| QueueOrder.PromotedInOrder | app/services/booking_service.py:1117-1243 | promotions follow standby order: if a user is regular afterwards, so is everybody still in line who stood in front |
| QueueOrder.NobodyDemoted | app/services/booking_service.py:1117-1243 | a regular user still booked there stays regular, unless the quantity shrank |
| Histories.UserIsBookedAndTold | app/services/booking_jobs.py:123-238 | a concrete legal history at whose end a user is booked and has been told so |
| Database.Database.GetSetup | app/services/performance_service.py:402-455 | the bucket loops compute the setup in processing order |
| Database.Database.SaveCastItem | app/services/booking_service.py:939-1033 | the statements on bookings and log have exactly the modelled effect, and fail exactly on a repeated or unknown user |
| Database.Database.ApplyCast | app/services/booking_service.py:1036-1072 | position by position, stopping at the first failure |
| Database.Database.ApplyNotbooked | app/services/booking_service.py:1075-1102 | rejected afterwards are exactly the listed users without a booking |
| Database.Database.SaveCast | app/services/booking_service.py:1105-1114 | all of the save or nothing; a request that lists nobody at two positions is stored list by list |
| Database.Database.SyncPositions | app/services/performance_service.py:263-312 | deleting, updating and adding rows ends with exactly the desired setup |
| Database.Database.ReconcileSetupChange | app/services/booking_service.py:1117-1157 | purging and saving back, position by position |
| Database.Database.UpdatePerformance | app/services/performance_service.py:899-932 | the whole update with its error cases |
| Database.Database.DeletePerformance | app/services/performance_service.py:935-965 | the whole deletion with its error cases |
| Database.Database.CancelAuthUserBooking | app/services/booking_service.py:1206-1243 | rebuilding the list and running it through the engine; the flush cannot fail |
| Database.Database.ChangeUserRequestStatus | app/services/booking_service.py:1283-1307 | dispatching on the status the evaluator computes |
| Database.Database.NotifyUpcomingBookingStatus | app/services/booking_jobs.py:123-238 | grouping, deciding and marking user by user ends in one state, whatever order the rows arrive in |
| Database.Database.SyncUserPositions | app/services/user_position_service.py:103-130 | removing and adding ends with exactly the desired positions |
| Answers.QualifyMeans | app/services/user_position_service.py:103-130 | the positions of one user are replaced, those of others stay |
| Billing.BillingByItem | app/services/booking_service.py:1339-1364 | every slot of a position is listed and charged once, a vacant one at the default fee |
| Billing.GetBilling | app/services/booking_service.py:1402-1446 | the loops over truncated lists compute the bill |
| Billing.BillExact | app/services/booking_service.py:1313-1446 | the bill adds up under all prices if and only if every position of the performance is aligned in the sense of `Regulars`: the total is the fees of exactly the regular bookings, counted from the rows, plus the default fee per vacancy, the organisation fee and the extra cost |
| Billing.BillConserves | app/services/booking_service.py:1313-1446 | one direction, for given prices |
| Billing.BillInFull | app/services/booking_service.py:1313-1446 | the total item by item, with the organisation fee by the number of slots and the extra cost if there is one |
| Billing.VacancyMeans | app/services/booking_service.py:1339-1364 | a slot no regular booking takes costs the default fee of its own kind |
| Billing.BillAlways | app/services/booking_service.py:1313-1446 | every bill adds up after every history without a save that leaves a gap |
| Billing.CancelBill | app/services/booking_service.py:1313-1446 | from any sound state: the cancellation of a user within the quantity changes the total by the fee of the first user beyond it, or the default, less its own; any other by nothing |
| LoginThrottle.AuthLog.CheckLoginThrottle | app/services/auth_service.py:78-127 | the queries compute `Check` |
| LoginThrottle.AuthLog.HandleLogin | app/api/router_includes/auth.py:98-179 | check, authenticate, log: which row each attempt leaves and what it answers |
| LoginThrottle.FailedSorted | app/services/auth_service.py:103-116 | rows read in the order of writing are in the order of time |
| LoginThrottle.AtMostFive | app/services/auth_service.py:78-127 | in every sequence of requests, at every time and for every pair, at most five failures lie in the last minute after the last success |
| LoginThrottle.BlockedMeans | app/services/auth_service.py:78-127 | a pair is turned away exactly if five of its failures lie within 60 seconds and after all its successes |
| LoginThrottle.NeverMoreThanFive | app/services/auth_service.py:78-127 | and never do more than five |
| LoginThrottle.UntilMeans | app/services/auth_service.py:118-127 | the block ends at the first time fewer than five count |
| LoginThrottle.AttemptLogged | app/api/router_includes/auth.py:98-179 | what each attempt leaves in the log |
| LoginThrottle.LowerMeans | app/services/auth_service.py:78-83 | addresses are compared without regard to ASCII case |
| LoginThrottle.WaitReported | app/services/auth_service.py:123-127 | the wait reported is between 1 and 60 seconds and less than a second short |
| LoginThrottle.WaitMeans | app/services/auth_service.py:123-127 | it is the whole seconds until the block ends, but at least one |
| LoginThrottle.BlockIsExact | app/services/auth_service.py:118-127 | a block stands until the fifth latest failure is a minute old, whatever anybody requests meanwhile; from then on the pair is let through, unless the pair itself has tried again since |
| LoginThrottle.OpenAfterWait | app/services/auth_service.py:118-127 | a second after the reported wait the pair is let through, whatever other pairs do |
| Sessions.SessionTable.CreateUserSession | app/services/auth_service.py:152-173 | opening a session and issuing its first token |
| Sessions.SessionTable.RefreshSession | app/services/auth_service.py:189-230 | rotation, and every reason to end the session instead |
| Sessions.SessionTable.EnforceIdleTimeout | app/api/deps.py:72-97 | the timestamp moves only when more than a minute behind |
| Sessions.SessionTable.GetCurrentUser | app/api/deps.py:116-127 | which requests are accepted |
| Sessions.RefreshAnswers | app/services/auth_service.py:189-230 | a refresh goes through exactly with the stored secret, a good account, within timeout and lifetime; and what the row then holds |
| Sessions.RequestAnswers | app/api/deps.py:72-127 | a request is accepted exactly with a live token of a live session within the timeout; and when the timestamp moves |
| Sessions.OpenAnswers | app/services/auth_service.py:152-173 | what a new session holds, and its first token |
| Sessions.EndAnswers | app/services/auth_service.py:233-450 | logging out ends one session, a password reset those of the account |
| Sessions.DefaultTimes | app/core/config.py:53-61 | the default settings: two hours, a quarter of an hour, a week |
| Sessions.RunInv | app/services/auth_service.py:152-230 | the timestamp trails the last passed check by at most a minute, every token ends in time, live secrets are unspent and distinct, in every history |
| Sessions.NoLateRequest | app/core/security.py:67-84 | no request is accepted after creation plus refresh lifetime plus token lifetime |
| Sessions.NoLateRequestByDefault | app/core/security.py:67-84 | with the default settings, 7 days and 15 minutes |
| Sessions.IdleBounds | app/api/deps.py:72-97 | how far the timestamp tells the gap since the last passed check, in every history |
| Sessions.IdleEnds | app/services/auth_service.py:206-210 | in every history, after a gap over the timeout a refresh issues nothing, and refresh and request alike end the session |
| Sessions.IdleStays | app/services/auth_service.py:200-230 | after a gap of at most the timeout less a minute, a refresh with the session's secret goes on and issues a token, a live token is accepted, and the session stays |
| Sessions.IdleBoundsTight | app/api/deps.py:95-97 | in between it depends on when the timestamp was last written |
| Sessions.EndedForGood | app/services/auth_service.py:181-258 | an ended session never comes back |
| Sessions.SecretWorksOnce | app/services/auth_service.py:200-203 | after any history, an exchange of a refresh secret and any further history, that secret gets nothing and ends the session it is presented for |
| Recipients.CountJoined | app/core/mailer.py:62-65 | a joined list counts as its entries together, whatever they are |
| Recipients.CountRoundTrip | app/core/mailer.py:62-65 | counting a joined list of plain addresses gives its length |
| Recipients.JoinMeans | app/core/mailer.py:195-203 | entries are joined with a comma and a space |
| Recipients.CountsMeans | app/core/mailer.py:62-65 | an entry counts if some character of it is not white space |
| KillSwitch.Mailer.SendTemplatedEmail | app/core/mailer.py:195-241 | guard, deliver, log, going on if the row cannot be written |
| KillSwitch.ActiveMeans | app/core/mailer.py:81-124 | mails are held back exactly if the recipients of the rows of the period add up to the threshold, or cannot be added up |
| KillSwitch.RowMeans | app/core/mailer.py:163-189 | the addresses stand in to or in bcc, never in both |
| KillSwitch.LogCounts | app/core/mailer.py:95-124 | what the log counts in the window, and what went unlogged, is what was delivered in it |
| KillSwitch.DeliveriesBounded | app/core/mailer.py:81-124 | over every window, deliveries are at most the threshold less one plus the largest mail plus what went unlogged |
| KillSwitch.BoundReached | app/core/mailer.py:195-241 | and that many can happen |
| OrderedTable.CoreelementTable.CreateCoreelement | app/services/coreelement_service.py:316-343 | a new row gets the largest key plus one |
| OrderedTable.CoreelementTable.MoveCoreelement | app/services/coreelement_service.py:380-401 | finding the row and its neighbour and exchanging their keys |
| OrderedTable.CreateAppends | app/services/coreelement_service.py:324-330 | a created row is last in the listing |
| OrderedTable.NewKey | app/services/coreelement_service.py:324-330 | the key of a new row: 1 in an empty table, else one more than the largest |
| OrderedTable.DeleteRemoves | app/services/coreelement_service.py:369-377 | deleting takes the row out of the listing and keeps the rest |
| OrderedTable.DeletedRow | app/services/coreelement_service.py:369-377 | deleting takes out the one row with the id |
| OrderedTable.MoveSwapsNeighbours | app/services/coreelement_service.py:380-401 | a move exchanges two neighbours of the listing and nothing else; at either end it does nothing |
| OrderedTable.MoveUp | app/services/coreelement_service.py:380-401 | up exchanges a row with the one listed before it; at the top it does nothing |
| OrderedTable.MoveDown | app/services/coreelement_service.py:380-401 | down exchanges it with the one listed after it; at the bottom it does nothing |
| OrderedTable.MoveBack | app/services/coreelement_service.py:380-401 | moving there and back is the identity exactly if the first move did something or there is only one row |
| OrderedTable.RunIsPlainList | app/services/coreelement_service.py:296-401 | over every history the keys stay pairwise different and the listing is that of a plain list under the same operations |

## Left out

- Routers other than the sequence of steps in the login handler, request schemas, middleware, exception handlers: no state of their own.
- Concurrency: each service call is one atomic step; two transactions that interleave are not modelled.
- SMTP, templates and the job queue: "told" means that the row was marked. A mail server that fails half-way makes the job roll back every mark, although some mails have gone out; the model has no such run.
- Database.Database.NotifyUpcomingBookingStatus: what the mail says (names, places, dates) is not modelled, only whom it reaches and which rows it marks; a mail the kill switch suppresses counts as told, as in the code.
- UsersStatus.StatusOfUsers: the position's display name and the time of the last change are not part of the modelled status.
- CalendarStatus.StatusOnPerformances: nor are they here.
- Database.Database.UpdatePerformance: of the field checks only those on the date and the positions are modelled; locations, works, fees, rehearsals and proprium are not.
- Database.Database.ChangeUserRequestStatus: the notification to the disponents about a cancelled booking is not modelled.
- Database.Database.DeletePerformance: cascades to rehearsals and proprium are not modelled.
- Billing.GetBilling: the names on the bill are not modelled.
- Jobs.DecisionOnArrival: rows of different transactions at the same time are taken to arrive in the order of writing too, which the query does not promise.
- Deleting users: only registration, verification and changes of address are steps of a history.
- Fees are natural numbers without the upper bounds of the request schemas; the quantities of a setup keep theirs (1 to 99).
- LoginThrottle.AuthLog.CheckLoginThrottle: lower-casing covers ASCII letters; authenticating is a verdict passed in, the password check itself is not modelled.
- Sessions.SessionTable.GetCurrentUser: whether the account behind the token exists, is unlocked and has an address is passed in; signing, hashing and the cookie format are not modelled, secrets are fresh numbers compared for equality.
- Sessions.SessionTable.EnforceIdleTimeout: the user's last-signal column is not modelled.
- OrderedTable.CoreelementTable.CreateCoreelement: the checks on names and extra fields are one verdict passed in.
- Time zones: one integer clock that does not run backwards; a day has 86400 seconds.
- Artists, fees, scores, short links, directory, statistics, backups, permissions: records without interplay.
