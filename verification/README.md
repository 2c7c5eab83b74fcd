# Verified model of a reservation sniper

The repository plans, schedules and races restaurant bookings. This project models its hard
state in Dafny and proves what every run of it keeps. One file holds one component:

- `booking_race.dfy`: the concurrent booking phase, as atomic actions any scheduler may interleave.
- `wait_and_fire.dfy`: the timer that wakes a snipe against the context that cancels it.
- `lifecycle.dfy`, `engine.dfy`: the status table, the persisted rows, the transition gate, Run with
  its polling loops, and the race's status changes, with the store failing at any call.
- `slot_ranking.dfy`, `sorting.dfy`: the race order, over stable sorting and the engine's insertion sort.
- `booking_attempts.dfy`, `request_headers.dfy`: idempotency keys, the sent-key tracker, sign-and-retry, and
  what a request carries.
- `goals.dfy`, `instants.dfy`, `canonical_json.dfy`, `plan_bytes.dfy`: the content address of a plan, from the UTC
  text of an instant up to the canonical bytes.
- `slot_grid.dfy`, `planner.dfy`: slot expansion, strategy choice, and what a plan promises the engine.
- `fake_clock.dfy`: the discrete-event clock.
- `sealed_secrets.dfy`, `session_migration.dfy`: sealing, rotation and the plaintext migration, over an
  ideal AEAD.
- `idempotency_store.dfy`, `quest_service.dfy`, `overlapping_creates.dfy`: the idempotency table, at-most-once
  quest creation, and creates that overlap.
- `quest_stream.dfy`: replay-then-live subscription and the engine's emitter.
- `event_stream_text.dfy`: the server-sent event frames and the client's parser.
- `name_query.dfy`, `resolver_cache.dfy`: the venue resolver's cache.
- `runs.dfy`: schedules of a state machine, shared by the five machines here.
- `text.dfy`, `counting.dfy`, `options.dfy`: numbers, padding, string order, counting, and optional values.

Goroutines, timers, cancellation, the provider, the database and randomness are nondeterministic: a
state machine over labelled actions where the code is concurrent, and arbitrary choices inside the
methods where it is sequential. Times are integers in nanoseconds. A ghost count of failed calls goes with the
store, the database, the cache and the service: an operation reports a fault only when that count went up.

Some comments in the repository promise more than its code does. The model follows the code, and the
lemmas named here say exactly when the promise holds:

- The `prepare_blocked` return skips `wg.Wait` (`internal/engine/race.go:109-112`): a booking
  can be made and a failure reported, except exactly when there is at most one slot or no prepare is blocked
  (`BookingRace.NoBookingLostExactly`, `BookingRace.BlockedReturnLosesBooking`).
- Run promises `ctx.Err()` when it is cancelled before the scheduled time (`internal/engine/run.go:33-36`). It
  returns that in every run exactly when the timer does not fire afterwards: otherwise it can return nil
  (`WaitAndFire.CancelReportedExactly`, `WaitAndFire.SkippedRun`).
- `Result` is set on the live state before Booked is persisted (`internal/engine/race.go:157`), and
  `TransitionSnipe` does not look at the row's old status (`internal/store/sqlite.go:321-324`): a write
  keeps the tables sound exactly when it is a legal step from the stored status and its result fits
  (`Engine.TablesStep`). Two overlapping runs can break that (`Engine.OverlappingRuns`), and so can a handle
  used on after its Booked was not persisted (`Engine.AfterFailedPersist`); the theorem about whole
  histories is therefore one of a freshly loaded handle per call.
- The fake timer's `Stop` answers true after firing (`internal/clock/fake.go:97-105`):
  `FakeClock.StopAnswersTruthfully`, `FakeClock.StopAfterFiring`, `WaitAndFire.SettledExactlyUnderContract`.
- The caller's headers are to win over the signer's (`internal/resy/sign_retry.go:137-140`), but they are set under
  canonical names in map order (`internal/resy/client.go:214-219`): a header is safe exactly when no other
  spelling of its name has another value (`RequestHeaders.KeyCarriedExactly`, `RequestHeaders.SpellingReplacesKey`).
- `Advance` documents the interval (now, now+d], but its loop also fires what is due exactly now
  (`internal/clock/fake.go:53-60`): `FakeClock.AdvanceFiresFromNow`, `FakeClock.NowEventFires`.
- An expired row of the same payload hides a live row of another (`internal/store/idempotency.go:191-195`):
  `IdempotencyStore.ConflictHiddenExactly`, `IdempotencyStore.ExpiredRowHidesConflict`.
- The 24 hours of a replay end up to a millisecond early, and a Continuous plan hashes its own time:
  `IdempotencyStore.ReplayedExactlyUntil`, `Planner.HashStableExactly`, `Planner.ContinuousRehashes`.
- Nothing is held between the idempotency lookup and the record (`internal/service/standard_quest.go:186-300`):
  every call that looks before the first record makes a quest of its own, and the last record overwrites the
  others (`OverlappingCreates.WorkDoneExactly`, `OverlappingCreates.RecordSurvivesExactly`). One key makes at most
  one quest when its calls are made one at a time and their records are kept
  (`OverlappingCreates.OneAtATimeMakesOne`), and in every interleaving only when there is a single call
  (`OverlappingCreates.AtMostOneQuestExactly`).
- The associated data are called an injective encoding (`internal/secrets/sealer.go:18-23`). They bind a slot
  exactly when the separator is nowhere in the user id but first and nowhere in the account id but last:
  `SealedSecrets.BoundExactly`.
- A migration of an account with different session tokens keeps one of them:
  `SessionMigration.TokensSurviveExactly`, `SessionMigration.SecondTokenLost`.
- SubscribeQuest is to end with its quest (`internal/service/service.go:42-46`). A terminal
  event ends it exactly when it was emitted after the call subscribed and found room
  (`QuestStream.TerminalHeardExactly`, `QuestStream.MissedSchedule`, `QuestStream.DroppedSchedule`), and a
  cancelled quest emits none (`internal/service/standard_quest.go:445-466`): `QuestStream.CallOffIsSilent`,
  `QuestStream.CalledOffSchedule`.
- A window with minutes of 60 and more can pass for not inverted and stop the program or yield no slot
  (`internal/planner/slots.go:102-103`): `SlotGrid.CapacityNegativeExactly`, `SlotGrid.OffClockWindows`.
- Framing an event's type as it is (`internal/transport/http/sse.go:89`) is safe exactly for the types that
  `EventStreamText.TypeLetsThroughExactly` describes.

## Model

| member | source | states |
|---|---|---|
| BookingRace.NoLostBooking | internal/engine/race.go:88-154 | In every interleaving of the prepare loop, the ConfirmSlot goroutines, the provider and a parent cancellation: once the race has passed `wg.Wait`, every goroutine has ended, and there is a winner exactly when some ConfirmSlot succeeded, the winner being one of those confirmations |
| BookingRace.SendNeverBlocks | internal/engine/race.go:91-135 | A goroutine holding a confirmation always finds room in the results channel |
| BookingRace.StepKeepsInv | internal/engine/race.go:95-146 | Every single action keeps the invariant behind this, whose centre is that the race context is cancelled only after a result was delivered |
| BookingRace.EveryRaceEnds | internal/engine/race.go:95-151 | No run is longer than 7n + 4 actions, and an unfinished one can always go on without any cancellation |
| BookingRace.EverySlotTried | internal/engine/race.go:95-154 | In every interleaving the slots are prepared in rank order, each at most once, and confirmed exactly where the prepare succeeded; a race that passes wg.Wait without a winner and without a cancellation has prepared every slot and failed to confirm each it could |
| BookingRace.FirstSenderWins | internal/engine/race.go:130-154 | The winner is the confirmation of the first goroutine to deliver, and without a delivery there is none |
| BookingRace.CancelStopsPreparing | internal/engine/race.go:95-137 | Once a winner has cancelled the race no slot is prepared any more but one under way, and whoever holds a confirmation can leave |
| BookingRace.BlockedReturnLosesBooking | internal/engine/race.go:109-112 | For any two or more slots, a schedule in which a ConfirmSlot succeeds and the race returns through prepare_blocked, reporting failure |
| BookingRace.NothingLostExactly | internal/engine/race.go:95-154 | Every interleaving leaves all goroutines ended and reports exactly what was booked if and only if there is at most one slot or no prepare is answered with a block |
| BookingRace.NoBookingLostExactly | internal/engine/race.go:95-154 | For the bookings alone: in every interleaving a finished race with a successful ConfirmSlot reports a winner, if and only if there is at most one slot or no prepare is answered with a block |
| BookingRace.RunRace | internal/engine/race.go:88-151 | The phase as a program under any scheduler: it ends, and its end is that of a run of the machine, which begins with the cancellation if the context was cancelled before |
| WaitAndFire.ReleaseAtMostOnce | internal/engine/run.go:80-112 | Under the Timer contract, in every interleaving: at most one release attempt, and once the caller is back the callback has finished or can never start |
| WaitAndFire.SettledForever | internal/engine/run.go:92-112 | A settled callback stays settled whatever happens later |
| WaitAndFire.CancelBeforeCheckPreventsRelease | internal/engine/run.go:84-90 | A cancellation before the callback's own check means the release is never attempted, and without one it is attempted once |
| WaitAndFire.AlwaysReturns | internal/engine/run.go:92-112 | Every run has at most seven actions, and until the caller is back some action other than a cancellation can go next |
| WaitAndFire.SettledExactlyUnderContract | internal/clock/fake.go:97-105 | The guarantee holds in all interleavings if and only if Stop keeps the contract of clock.Timer; the fake timer, whose Stop answers true after firing, breaks it |
| WaitAndFire.StoppedRun | internal/engine/run.go:99-106 | Cancelled before the timer fires: stopped, without a release |
| WaitAndFire.SkippedRun | internal/engine/run.go:84-90 | Cancelled before the callback's check: no release, and either report |
| WaitAndFire.ReleasedRun | internal/engine/run.go:84-98 | Otherwise one release, which a cancellation during it may still hide from the caller |
| WaitAndFire.UnfiredReportsCancel | internal/engine/run.go:99-111 | A finished run in which the timer never fired was cancelled, reports that, and released nothing |
| WaitAndFire.CancelReportedExactly | internal/engine/run.go:33-36 | Every finished run with a cancellation, even one before everything else, reports the context's error if and only if the timer never fires in it: otherwise the caller may see done and return nil |
| Lifecycle.TerminalIsLast | internal/domain/status.go:86-129 | On any legal status trail each step is in the transition table and nothing follows a terminal status |
| Lifecycle.TerminalExactly | internal/domain/status.go:86-139 | A status is terminal if and only if the table has no change out of it |
| Lifecycle.EnteredFrom | internal/domain/status.go:86-129 | The table read by its targets: from where each status can be entered; every status that is not terminal can fail or be cancelled |
| Lifecycle.EveryStatusReachable | internal/domain/status.go:86-139 | Each status ends some legal trail from Submitted |
| Lifecycle.ParseStatusRoundTrip | internal/store/sqlite.go:291-299 | The stored name of a status reads back as that status |
| Lifecycle.PathsAreTrails | internal/store/sqlite.go:251-289 | Every path statusPaths offers is a legal trail from Submitted to its target |
| Lifecycle.SnipeState.Transition | internal/domain/snipestate.go:64-70 | Moves exactly when the table allows it and otherwise leaves the status alone |
| Lifecycle.SnipeState.Clone | internal/domain/snipestate.go:76-89 | A fresh object with the same value |
| Lifecycle.SnipeState.ForceStatus | internal/store/sqlite.go:219-249 | Succeeds if and only if the current status lies on a known path to the target, then stands at the target; always succeeds from a fresh state |
| Engine.Store.CreateSnipe | internal/store/sqlite.go:55-80 | Adds one row and starts its status trail, or changes nothing |
| Engine.Store.AppendEvent | internal/store/sqlite.go:364-381 | Appends one event or changes nothing |
| Engine.Store.TransitionSnipe | internal/store/sqlite.go:301-362 | One transaction: overwrites the row whatever status it had and appends the event, or changes nothing |
| Engine.Store.GetSnipe | internal/store/sqlite.go:82-87 | Rebuilds the state whose row is exactly the stored one, with the persisted status |
| Engine.AuditedCount | internal/store/sqlite.go:301-362 | A row's events match its status trail one by one: each change has exactly one event of its own kind; only the Submitted event may be missing |
| Engine.RecordedStatus | internal/domain/event.go:8-18 | An event tells the status it records, but for found, which is recorded on the way to Awaiting and to Finding |
| Engine.RowStep | internal/store/sqlite.go:315-360 | Whatever status a row held, a change written over it with its event keeps the row good if and only if it is a legal step from there and its result fits its new status |
| Engine.TablesStep | internal/store/sqlite.go:301-362 | The same for the whole table, other rows being untouched: the store looks at neither the old status nor the result |
| Engine.OverlappingRuns | internal/store/sqlite.go:321-324 | Two runs that both loaded a Scheduled Explicit snipe and both wake: neither write is refused as illegal, and the tables stay sound if and only if at most one of them commits |
| Engine.AfterFailedPersist | internal/engine/race.go:155-165 | When the race booked and its Booked was not persisted, the live result stays: what the same handle writes next keeps the tables sound if and only if it is Booked |
| Engine.Handle.Transition | internal/engine/state.go:45-101 | Illegal exactly when the table forbids it from the handle's status; on any failure handle and store are as before; on success row, event and trail grew by the one change, the handle equals its row, and the store is sound if and only if the step is legal from the row's own last status and the result fits |
| Engine.Handle.Persist | internal/engine/state.go:69-90 | The candidate replaces the live state only after the commit |
| Engine.SnipeEngine.Submit | internal/engine/engine.go:106-140 | A new snipe has trail [Submitted] and one event, and its row and handle carry the intent given; an existing id is refused without any change to the store |
| Engine.SnipeEngine.Load | internal/engine/engine.go:95-101 | The handle carries exactly the last persisted status; there is none only for an unknown id or when the store failed |
| Engine.SnipeEngine.Run | internal/engine/run.go:40-75 | From Submitted or Scheduled it never asks for an illegal transition, only extends this snipe's history, keeps the store sound, and ends where the release strategy may end; but for the event of its scheduling nothing is recorded or asked before the wake time, an overdue snipe is released without being kept by the context, and no release begins only for a refusal, a failed write or a cancelled context; from other statuses it does nothing |
| Engine.SnipeEngine.Drive | internal/engine/run.go:40-75 | The same on a loaded handle; leaving Submitted stamps the wake time of the strategy and records Scheduled first |
| Engine.SnipeEngine.Stamp | internal/engine/run.go:122-141 | The wake time is the release instant, the start of the probe, or the present; without a strategy the snipe stays as it was |
| Engine.SnipeEngine.TransitionToScheduled | internal/engine/run.go:150-199 | Status and wake time change in one transaction or not at all |
| Engine.SnipeEngine.WaitAndFire | internal/engine/run.go:80-112 | The wait is a run of the timer machine with at most one release, which begins no earlier than the delay after the start and before anything is recorded or asked: without one, store and handle stay as they were and the context was cancelled; cancelled beforehand, there is none; what is returned is what the machine's caller sees |
| Engine.SnipeEngine.Release | internal/engine/run.go:70-76 | There is a wait if the wake time is still ahead and none if it has passed; the release begins no earlier than the wake time, everything recorded and asked comes after that, and only a cancelled context during a wait keeps it from beginning |
| Engine.SnipeEngine.FireRelease | internal/engine/release.go:22-46 | Dispatches on the strategy and ends where it may end, with the event of its strategy; refused exactly for arguments the engine does not take or a missing provider; stopped by the context only when that was cancelled, and by the provider only after a failed poll |
| Engine.PollCount | internal/engine/release.go:76-126 | Polls spaced by the interval inside a window number at most ceil(window / interval) |
| Engine.GoodPollsSpaced | internal/engine/release.go:121-126 | Between two polls lie the configured floor and the empirical 100 ms |
| Engine.SnipeEngine.PollCalendar | internal/engine/release.go:76-119 | Terminates; every poll is for the date given and follows a clock reading in [ProbeFrom, ProbeUntil), consecutive ones at least the interval apart; only the last can show an open entry for that date or fail, and these are exactly the ends by a hit and by a provider error; the window is reported closed only at or after ProbeUntil |
| Engine.SnipeEngine.RunDiscoveredRelease | internal/engine/release.go:53-119 | Polls for the date of the intent; ends in Awaiting only after an open entry for it and in Failed only at or after ProbeUntil without one; refused exactly for a window that is unset or empty |
| Engine.SnipeEngine.EnterProbing | internal/engine/release.go:61-71 | Either the status and the store are as before or the trail grew by exactly one Discovering; polling starts no earlier than ProbeFrom |
| Engine.SnipeEngine.Probe | internal/engine/release.go:72-119 | The probe loop and what its end does to the status |
| Engine.SnipeEngine.Conclude | internal/engine/release.go:80-112 | The status after a polling loop follows from how the loop ended |
| Engine.SnipeEngine.PollInventory | internal/engine/release.go:139-175 | The same for the continuous loop, from its start to Until: it ends by a provider error exactly when the last poll failed, so an empty inventory, however it is reported, is waited out |
| Engine.SnipeEngine.RunContinuousRelease | internal/engine/release.go:131-175 | Asks for the date of the intent; ends in Awaiting only after a slot was found and in Expired only at or after Until without one; refused exactly without Until |
| Engine.SnipeEngine.Seek | internal/engine/release.go:139-175 | The find loop and what its end does to the status |
| Engine.SnipeEngine.RunBookingRace | internal/engine/race.go:35-165 | From Awaiting it never asks for an illegal transition; the race is a run of the machine over exactly as many slots as Find returned, and without a cancellation it fails with all_attempts_failed only when every one was prepared and none confirmed; a row says Booked exactly with the winner's confirmation; a failure carries the reason of the stage it failed in; when a booking was made and wg.Wait passed, it is reported or its persist failed |
| Engine.SnipeEngine.FindAndRank | internal/engine/race.go:44-74 | Booking is reached only with the ranked form of the non-empty slots Find returned; a failure is persisted as inventory_empty exactly when Find returned no slots and as find_failed when it returned an error |
| Engine.SnipeEngine.EnterBooking | internal/engine/race.go:66-74 | Booking is entered with exactly the ranked slots, or the snipe stays in Finding |
| Engine.SnipeEngine.FailWithReason | internal/engine/race.go:167-181 | Failed with this reason, or the snipe as it was when the store failed |
| Engine.SnipeEngine.Settle | internal/engine/race.go:88-165 | A run of the machine over the n slots, cancelled with the context, and its outcome is what is persisted; what is not persisted leaves the store as it was |
| Engine.SnipeEngine.Report | internal/engine/race.go:148-185 | Booked with the winner if there is one; otherwise Failed, with prepare_blocked exactly when the race returned through it and all_attempts_failed else |
| Engine.AnyHistory | internal/engine/state.go:45-101 | Any history of Submit, Run and race calls, each on a freshly loaded handle, with the store failing and the context cancelled anywhere: every row stays sound and no recorded status is taken back |
| SlotRanking.RankingCorrect | internal/engine/race.go:183-201 | The order is a permutation, sorted by first matching preference with unmatched slots last, ties in Find's order |
| SlotRanking.RankingUnique | internal/engine/race.go:183-201 | No other order has these properties |
| SlotRanking.Priority | internal/engine/race.go:187-194 | The first matching preference, or their number when none matches |
| SlotRanking.RankSlotsByPreference | internal/engine/race.go:183-201 | The sort on a copy gives that order; without preferences the caller's own slice comes back, and the input never changes |
| BookingAttempts.KeyTextFixesAttempt | internal/domain/idempotency.go:24-54 | Within one intent equal key texts have equal attempt numbers, whatever the slot texts contain |
| BookingAttempts.KeyTextExactly | internal/domain/idempotency.go:24-54 | For intent hashes without a line end two key texts are equal if and only if hash, slot text and attempt are: no snipe's key is another snipe's |
| BookingAttempts.RaceKeysDistinct | internal/engine/race.go:116-120 | All keys of one race are pairwise distinct |
| RequestHeaders.MergeHeaders | internal/resy/sign_retry.go:141-149 | For each exact spelling of a name the caller's value wins over the signer's; nothing else is lost or added |
| RequestHeaders.SetHeaders | internal/resy/client.go:213-219 | The loop over the map, in any order, sets each non-empty value under its canonical name over the standard headers |
| RequestHeaders.CarriedExactly | internal/resy/client.go:214-219 | A header of the merged map is on the request in every order if and only if whatever else has its canonical name has its value |
| RequestHeaders.KeyCarriedExactly | internal/resy/sign_retry.go:137-140 | The idempotency key is never overwritten by the signer, in any order, if and only if no other spelling of its name comes from the signer with another value |
| RequestHeaders.SpellingReplacesKey | internal/resy/client.go:214-219 | A signer that spells the name in lower case replaces the key in some order |
| BookingAttempts.Client.Check | internal/resy/book.go:34-48 | Each non-empty key is admitted once per client lifetime |
| BookingAttempts.Client.Confirm | internal/resy/prepare.go:77-97 | An admitted key makes one POST, or two exactly when the first was answered as a bot, the signer is real and the wait was not cut short; over any history each key has at most two; a refused one makes none |
| BookingAttempts.Client.DoSignedAndRetry | internal/resy/sign_retry.go:41-100 | A second POST is made after an anti-bot reply with a real signer and, unless the wait is cut short, only then and always; on the client's clock it comes at least 100 ms after that reply; both carry the caller's headers |
| BookingAttempts.Client.AttemptSigned | internal/resy/sign_retry.go:107-135 | One POST, signer error or not, whose merged headers hold the caller's and whose request is one walk over them |
| BookingAttempts.Client.WaitFloor | internal/resy/sign_retry.go:155-166 | A completed wait has moved the clock by the floor |
| Sorting.InsertionSort | internal/engine/subscribe.go:114-124 | The in-place insertion sort produces the stable sorted order |
| Sorting.InsertInPlace | internal/engine/subscribe.go:116-123 | One turn of its outer loop inserts one element into the sorted prefix and leaves the rest |
| Sorting.SortCorrect | internal/engine/race.go:197-199 | Sorted, the same elements, ties in their order |
| Sorting.SortDependsOnMultiset | internal/domain/plan.go:216 | Under a total order two lists sort alike if and only if they hold the same elements |
| Sorting.StableOrderUnique | internal/engine/race.go:197-199 | There is only one stable sorted order |
| Instants.UtcNanosUnique | internal/domain/intent.go:74-76 | Different instants have different UTC texts, fraction digits trimmed and all |
| CanonicalJson.EscapeUnique | internal/domain/plan.go:221 | No character's JSON escape is the beginning of another's |
| CanonicalJson.KeyOrderIrrelevant | internal/domain/plan.go:212-216 | Whatever order a map yields its keys in, sorting gives the same list |
| CanonicalJson.PrintUnique | internal/domain/plan.go:208-267 | Unique readability: the text of a value and what follows it fix both |
| CanonicalJson.WriteCanonical | internal/domain/plan.go:208-267 | The walker appends exactly the canonical text, under any map iteration order |
| CanonicalJson.WriteItems | internal/domain/plan.go:233-258 | Appends the items of a list, separated and closed |
| CanonicalJson.WriteFields | internal/domain/plan.go:210-232 | Appends the fields of an object in key order, separated and closed |
| CanonicalJson.CollectKeys | internal/domain/plan.go:212-215 | Each key once, in an arbitrary order |
| CanonicalJson.SortKeys | internal/domain/plan.go:216 | The keys in string order |
| PlanBytes.BytesDecidePlan | internal/domain/plan.go:46-56 | Bytes exist for every known strategy, and two plans have equal bytes if and only if they agree on effective version, goal up to the order of table types, venue provider, ref and tz name, drop moment, strategy, fire schedule and signing flag |
| PlanBytes.CanonicalBytes | internal/domain/plan.go:46-56 | Returns those bytes, or the error for an unknown strategy |
| PlanBytes.GoalUnique | internal/domain/plan.go:112-125 | The goal object decides the goal up to that equivalence |
| PlanBytes.ConstraintsUnique | internal/domain/plan.go:142-149 | Table types count as a multiset |
| PlanBytes.QueryUnique | internal/domain/plan.go:127-140 | The venue query object decides the query |
| PlanBytes.VenueUnique | internal/domain/plan.go:151-161 | The venue object decides provider, ref and tz name |
| PlanBytes.StrategyUnique | internal/domain/plan.go:163-186 | The strategy object decides the strategy and its instants |
| FakeClock.EventsFireInOrder | internal/clock/fake.go:57-95 | Over any run: fired events strictly increase in (deadline, seq), each fires once with the clock at its deadline, and every event is pending, fired or stopped |
| FakeClock.RunKeepsInv | internal/clock/fake.go:57-105 | The clock never moves back and the history of firings is never rewritten |
| FakeClock.StoppedNeverFires | internal/clock/fake.go:63-65 | An event stopped before it fired never fires, however the run goes on |
| FakeClock.AdvanceIsComplete | internal/clock/fake.go:60-74 | At the end of Advance the clock is at its target and every event has fired, was stopped or lies beyond it |
| FakeClock.StopAnswersTruthfully | internal/clock/fake.go:97-105 | Stop keeps the contract of clock.Timer exactly for events that have not fired or were stopped before |
| FakeClock.StopAfterFiring | internal/clock/fake.go:97-105 | Such a run: after the event has fired Stop still answers true |
| FakeClock.Fake.Advance | internal/clock/fake.go:57-75 | Whenever it ends at all: it ends exactly where its turns lead, as a run of the machine; all it fires is due in [now, now + d], and something due at this very instant fires if and only if such an event was pending and not stopped |
| FakeClock.AdvanceFiresFromNow | internal/clock/fake.go:53-65 | The same of any Advance, whatever its callbacks do: the documented interval leaves out its left end, the loop does not |
| FakeClock.NowEventFires | internal/clock/fake.go:53-65 | The run that sets a timer without delay and advances by nothing: the event fires |
| FakeClock.CalmAdvanceEnds | internal/clock/fake.go:60-72 | Advance ends when all but finitely many callbacks set their timers at least one tick ahead |
| FakeClock.RearmingNeverEnds | internal/clock/fake.go:60-72 | A callback that always sets its timer again without delay keeps every Advance from ending |
| FakeClock.AdvanceIsDetermined | internal/clock/fake.go:57-75 | Where Advance leads is settled by its target and by what its callbacks do |
| FakeClock.Fake.Fire | internal/clock/fake.go:66-71 | The head event runs at its deadline and its callback does exactly its operations |
| FakeClock.Fake.Perform | internal/clock/fake.go:66-71 | A callback's operations, one after the other |
| FakeClock.Fake.AddEvent | internal/clock/fake.go:77-95 | The new event is put in its place by (deadline, seq) |
| FakeClock.Fake.StopEvent | internal/clock/fake.go:97-105 | True exactly on the first stop of an event |
| FakeClock.SortKeepsDistinct | internal/clock/fake.go:87-93 | Re-sorting the queue duplicates and drops nothing |
| SealedSecrets.BoundExactly | internal/secrets/sealer.go:18-23 | For slots Seal accepts, the associated data belong to one slot only if and only if the separator is nowhere in the user id but first and nowhere in the account id but last |
| SealedSecrets.AssociatedDataInjective | internal/secrets/sealer.go:220-230 | Such a slot shares its bytes with no other acceptable slot |
| SealedSecrets.SeparatorBreaksBinding | internal/secrets/sealer.go:220-230 | Every other slot shares them with a second acceptable slot |
| SealedSecrets.MovedRowIsTampered | internal/secrets/sealer.go:104-142 | A row copied to any other acceptable slot fails to open there if and only if its own slot is bound in that sense |
| SealedSecrets.OpenGivesPlaintext | internal/secrets/sealer.go:106-142 | Over a healthy table Open answers the plaintext of the slot, or not-found |
| SealedSecrets.Sealer.Seal | internal/secrets/sealer.go:75-102 | On success exactly this slot's plaintext is replaced; refused exactly for a slot without user or account or of an unknown kind, and otherwise failing, without a change, only for a failed call of the database or the random source |
| SealedSecrets.Sealer.Open | internal/secrets/sealer.go:106-142 | The last sealed plaintext of the slot, or not-found, or a fault of the database |
| SealedSecrets.Sealer.Delete | internal/secrets/sealer.go:177-199 | On success exactly this slot goes; not-found only if it was absent, and a fault only of the database |
| SealedSecrets.Sealer.Reseal | internal/secrets/rotate.go:150-170 | One row opens under the old key and is sealed again with the same plaintext |
| SealedSecrets.Sealer.ResealAll | internal/secrets/rotate.go:119-175 | Every row, in any order; without a fault it stops only at a row the old key does not open |
| SealedSecrets.Sealer.Rotate | internal/secrets/rotate.go:81-199 | All rows move to the new key and the next version together with the active version and the sealer, or rows, version, key and sealer are all as before and the new key is wiped; it fails only for a wiped new key, a row that does not open, or a fault |
| SealedSecrets.RotationKeepsPlaintexts | internal/secrets/rotate.go:67-80 | A rotation keeps every plaintext and leaves every row healthy at the new version |
| SealedSecrets.OldKeyIsUseless | internal/secrets/rotate.go:67-80 | The old key opens nothing of a rotated table |
| SealedSecrets.Sealer.CheckMixedVersion | internal/secrets/rotate.go:26-55 | Names exactly the rows off the active version; over a valid sealer there are none |
| SealedSecrets.AnyHistory | internal/secrets/rotate.go:81-199 | Over any sequence of Seal, Delete and Rotate, each failing anywhere, the table means exactly what the successful commands say and the versions agree; without a fault no rotation fails and no Seal of a slot that may be named |
| SealedSecrets.RotateTo | internal/secrets/rotate.go:81-199 | A rotation to a new key, failing or not, keeps the invariant and every plaintext |
| SealedSecrets.LastWriteWins | internal/secrets/sealer.go:71-74 | The last successful command on a slot decides what Open returns |
| SessionMigration.TokenDb.Migrate | internal/secrets/migrate.go:48-207 | Exact and atomic: the report follows from the tables alone, migrated plus skipped is the number of non-empty rows, a failure or a dry run changes nothing; it fails only for a missing user or a fault |
| SessionMigration.MigrateRows | internal/secrets/migrate.go:112-194 | The loop deals with every row once, in any order, and counts each |
| SessionMigration.MigrateRow | internal/secrets/migrate.go:113-193 | One row: skipped, cleared, or sealed and cleared; a missing user is an error |
| SessionMigration.TakenExactly | internal/secrets/migrate.go:124-148 | A slot is taken exactly when it was before or an earlier row of its account was sealed |
| SessionMigration.SealFresh | internal/secrets/migrate.go:166-193 | Sealing a fresh account adds exactly its row and clears its tokens |
| SessionMigration.SkipTaken | internal/secrets/migrate.go:136-148 | An existing secret is left alone and the plaintext cleared |
| SessionMigration.SkipUnbound | internal/secrets/migrate.go:114-120 | An unbound account keeps its session |
| SessionMigration.PlaintextCleared | internal/secrets/migrate.go:187-192 | No token of a bound account is left in plain, and no other session changes |
| SessionMigration.SecondRunMigratesNone | internal/secrets/migrate.go:124-148 | A second run migrates none and changes nothing; only unbound rows are left |
| SessionMigration.TokensSurviveExactly | internal/secrets/migrate.go:79-110 | A migrated account opens to the token of each of its rows if and only if they all hold the same one; one of them it always holds |
| SessionMigration.SecondTokenLost | internal/secrets/migrate.go:79-110 | Of two different tokens of a migrated account one is opened no more and its plaintext is gone |
| SessionMigration.MigrationKeepsHealth | internal/secrets/migrate.go:166-186 | The secrets table stays healthy and every older secret opens as before |
| IdempotencyStore.KeyTextInjective | internal/store/idempotency.go:57-60 | The four parts can be read back from the hashed text when user, scope and payload hash hold no colon; the key may |
| IdempotencyStore.PlainTextInjective | internal/store/idempotency.go:65-68 | Likewise for the three-part text |
| IdempotencyStore.NewestRow | internal/store/idempotency.go:197-212 | A newest row of the key, if it has any |
| IdempotencyStore.GetResult | internal/store/idempotency.go:164-217 | The two-stage lookup amounts to the verdict: own live row replays, own expired row starts afresh, otherwise any live row of the key conflicts |
| IdempotencyStore.NewestLiveIffAnyLive | internal/store/idempotency.go:197-212 | Looking only at the newest row is enough |
| IdempotencyStore.ReplayedExactlyUntil | internal/store/idempotency.go:113-114 | An outcome is replayed exactly until its expiry, which millisecond storage puts less than 1 ms short of 24 hours |
| IdempotencyStore.ExpiredRowHidesConflict | internal/store/idempotency.go:180-195 | An expired row of the same payload hides another payload's live row, where a call without a row of its own conflicts |
| IdempotencyStore.ConflictHiddenExactly | internal/store/idempotency.go:180-216 | While a row of the key is live, a call goes through afresh if and only if it has an expired row of its own |
| IdempotencyStore.PutKeepsLive | internal/store/idempotency.go:84-132 | Recording a fresh outcome never touches a live row |
| IdempotencyStore.PutKeepsSound | internal/store/idempotency.go:113-131 | Every row keeps the same retention, under its own user |
| IdempotencyStore.PruneKeepsLive | internal/store/idempotency.go:259-273 | The sweep removes no live row and changes no replay and no conflict |
| QuestService.Service.CreateQuest | internal/service/standard_quest.go:158-301 | Either answered from the table without a change, or one fresh execution whose outcome is what is recorded; live rows are never lost; without a fault the table decides, and a fresh call without a pinned plan succeeds and is recorded under its key |
| QuestService.Service.CreateFresh | internal/service/standard_quest.go:211-300 | At most one quest row, snipe and event, with the id returned; a failed submit may leave its snipe behind; a pinned plan hash is the one persisted; without a pin and a fault all three are made |
| QuestService.Service.Prepare | internal/service/standard_quest.go:211-254 | Nothing is written before planning, plan hash, account and id are settled |
| QuestService.Service.Precheck | internal/service/standard_quest.go:188-209 | The lookup decides the call unless it is fresh or has no key |
| QuestService.Service.Record | internal/service/standard_quest.go:489-509 | Writes the outcome's row, or nothing when there is no key or the store failed |
| QuestService.Service.RecordIfKeyed | internal/service/standard_quest.go:489-509 | No key, no row |
| QuestService.Service.CancelQuest | internal/service/standard_quest.go:392-472 | The same protocol with the quest id as payload; without a fault a quest of the caller is cancelled and that is recorded under the key |
| QuestService.Service.CancelFresh | internal/service/standard_quest.go:431-471 | A live quest of the caller becomes Canceled with its time and a terminal one is left alone; it fails only for a quest that is not the caller's, or a fault |
| QuestService.Service.AnyCalls | internal/service/standard_quest.go:158-472 | Any calls by anyone, one after another at times that never go back, keep every row that is live at the end |
| QuestService.Service.CreateTwice | internal/service/standard_quest.go:186-209 | At most once for calls that do not overlap: after a recorded create and any other calls, the same call within the retention changes nothing and, unless its lookup fails, answers the same id, a success for a success and a failure with the same text for a failure, whatever plans the two pin |
| QuestService.Service.RepeatCreate | internal/service/standard_quest.go:192-208 | A call whose outcome is on record leaves the world as it is and answers that id, success or failure text again, or a failed lookup |
| QuestService.Service.CancelTwice | internal/service/standard_quest.go:392-472 | The same for a recorded cancellation |
| QuestService.CancelReplayed | internal/service/standard_quest.go:412-428 | A cancellation on record changes nothing when it is asked for again |
| OverlappingCreates.WorkDoneExactly | internal/service/standard_quest.go:186-300 | Calls with one key and goal that overlap, in every interleaving of their lookups, work and records: the calls that do the work are exactly those that looked before the first record was kept; they make at most one quest each, and exactly one each when all succeed |
| OverlappingCreates.AtMostOneQuestExactly | internal/service/standard_quest.go:186-300 | At most one quest in every interleaving if and only if there is at most one call: the service holds nothing between lookup and record |
| OverlappingCreates.OneAtATimeMakesOne | internal/service/standard_quest.go:186-300 | When no call looks while another is between lookup and record, and every record is kept, all of them make at most one quest |
| OverlappingCreates.RecordSurvivesExactly | internal/store/idempotency.go:113-123 | Of the calls that recorded a quest, later calls are answered with a call's own quest if and only if it recorded last: the upsert overwrites live rows |
| OverlappingCreates.TwoQuests | internal/service/standard_quest.go:186-300 | Such a run: two calls make two quests, each caller is told of its own, and only the second is on record |
| OverlappingCreates.LookFinds | internal/store/idempotency.go:164-217 | A lookup of the key is fresh exactly until the first record was kept, and then answers with the last one |
| QuestService.ReplayChangesNothing | internal/service/standard_quest.go:199-208 | Such a call adds no quest, snipe, event or row |
| QuestService.OneQuestPerCall | internal/service/standard_quest.go:249-300 | A call adds at most one of each, and a success that was no replay exactly one quest and its snipe |
| QuestService.OtherGoalConflicts | internal/service/standard_quest.go:199-203 | Another goal without a row of its own under that key conflicts |
| QuestService.CancelIsFinal | internal/service/standard_quest.go:437-449 | Cancelling changes at most the one live quest of the caller, to Canceled |
| QuestService.Service.PruneExpired | internal/store/idempotency.go:259-273 | The sweep as a service step keeps the invariant |
| QuestStream.ReplayThenLive | internal/service/standard_quest.go:571-710 | In every interleaving the callback sees a prefix of the history, and after the whole of it a prefix of an order-preserving selection of what the quest emitted after the call subscribed |
| QuestStream.MissedOrEmitted | internal/service/standard_quest.go:619-681 | While the call lasts, each notification since the history was read was missed before it subscribed or emitted to it after |
| QuestStream.CanEndExactly | internal/service/standard_quest.go:683-709 | A call can still return by itself if and only if it has, the client left, it replays a closed quest, or an event that ends the quest waits in its buffer |
| QuestStream.TerminalEventExactly | internal/service/standard_quest.go:714-728 | The pump stops at an event if and only if it records a status that no other can follow; whatever status an event records, it is a terminal event if and only if that status is terminal |
| QuestStream.TerminalHeardExactly | internal/service/service.go:42-46 | The event after which the quest can change no more, emitted after the call subscribed, ends a call the client has not left if and only if it found room in the buffer |
| QuestStream.MissedNeverHeard | internal/service/service.go:42-46 | A terminal event from before the subscription is never heard, and the call can only wait |
| QuestStream.MissedSchedule | internal/service/standard_quest.go:619-650 | Such a run: booked between history and subscription |
| QuestStream.DroppedSchedule | internal/service/standard_quest.go:671-679 | A run whose terminal event meets a full buffer |
| QuestStream.CallOffIsSilent | internal/service/standard_quest.go:445-466 | CancelQuest notifies nobody: a call open on the quest can return by itself afterwards if and only if it could before |
| QuestStream.CalledOffSchedule | internal/service/standard_quest.go:445-466 | Such a run: the quest is cancelled under an open call, which then waits for its client |
| QuestStream.StopsAtFirstTerminal | internal/service/standard_quest.go:683-709 | Live delivery stops at the first event that ends the quest, and the call returns only for one of its three reasons |
| QuestStream.EmittedIsAcceptedPlusDropped | internal/service/standard_quest.go:648-680 | Every notification is accepted or dropped, and none of the first 64 is dropped |
| QuestStream.StepKeepsInv | internal/service/standard_quest.go:626-709 | Each action keeps the invariant behind these |
| QuestStream.Engine.Subscribe | internal/engine/subscribe.go:44-57 | A new number, higher than every earlier one |
| QuestStream.Engine.CancelSubscription | internal/engine/subscribe.go:59-66 | Removes exactly that subscriber |
| QuestStream.Engine.SnapshotIds | internal/engine/subscribe.go:84-87 | Each subscriber once, in arbitrary order |
| QuestStream.SortedSnapshot | internal/engine/subscribe.go:81-93 | Sorted, the snapshot is in registration order without repetition |
| QuestStream.Engine.EmitToAll | internal/engine/subscribe.go:75-99 | Every subscriber of the snapshot is called once, in registration order, whatever the callbacks do to the registry |
| EventStreamText.RoundTrip | internal/client/http/client.go:390-452 | Parsing the frames of any list of events delivers every event that encoded, in order, rebuilt with its time in whole seconds, and no error |
| EventStreamText.EventsComeFirst | internal/client/http/client.go:425-443 | The same with anything after them |
| EventStreamText.ErrorFrameFails | internal/client/http/client.go:405-412 | A trailing error frame delivers every event before it and fails with its message, or with the raw text when that is no JSON string |
| EventStreamText.AnyCutDeliversPrefix | internal/client/http/client.go:425-451 | Wherever the bytes are cut, and whether the read then fails or just ends, only a prefix of the events is delivered |
| EventStreamText.TypeLetsThroughExactly | internal/client/http/client.go:397-438 | For every event type whatever, line ends included: the event arrives alone and without an error if and only if the lines of the type leave a frame that is no error and with what they add to the data the payload still decodes to it |
| EventStreamText.LineTypeLetsThroughExactly | internal/transport/http/sse.go:84-90 | For a type without a line end: if and only if its line fits the scanner and, less a carriage return at its end, is not that of "error" |
| EventStreamText.IgnoredLineExactly | internal/client/http/client.go:439-442 | A second line without a meaning to the parser makes no difference: the type arrives, line end and all, as its first line alone would |
| EventStreamText.BlankLineExactly | internal/client/http/client.go:428-431 | A blank second line costs the event unless the first is empty |
| EventStreamText.ParseStream | internal/client/http/client.go:390-452 | The scanning loop delivers exactly what the specification of the parser says, the decoded payloads |
| EventStreamText.CarriageReturnRead | internal/client/http/client.go:422-426 | A carriage return before a line end makes no difference to the line |
| EventStreamText.DataLinesJoin | internal/client/http/client.go:433-437 | The data lines of one frame are decoded as the lines of one payload |
| EventStreamText.Response.Serve | internal/transport/http/sse.go:83-114 | The response body is the frames in order, then the error frame unless the client left |
| EventStreamText.Response.WriteEvent | internal/transport/http/sse.go:83-94 | Appends one whole frame for an event |
| EventStreamText.Response.WriteError | internal/transport/http/sse.go:106-113 | Its three writes make one error frame |
| NameQuery.SameRowExactly | internal/resolver/resolver.go:315-322 | Two names share a cache row if and only if their lower-cased words are the same |
| NameQuery.FieldsOfJoin | internal/resolver/resolver.go:321 | Words joined by a space come apart as they were |
| NameQuery.TrimKeepsKey | internal/resolver/resolver.go:256-260 | Space around a name makes no difference |
| NameQuery.TrimmedExactly | internal/resolver/resolver.go:256-260 | What trimming leaves has no space at either end, and what it cuts off is nothing else |
| ResolverCache.Resolver.ResolveSlug | internal/resolver/resolver.go:206-250 | Branch by branch what is answered and what is cached; every cached row is always an answer the provider gave for its key at its time; a failed call leaves the cache alone; while the cache can be read and written the provider is asked exactly without a row within the TTL, its answer is kept, and an older row covers its failure |
| ResolverCache.Resolver.ResolveName | internal/resolver/resolver.go:255-289 | The same for names under their normalized key |
| ResolverCache.SlugCacheTransparent | internal/resolver/resolver.go:206-250 | Against a fixed directory that may fail, a success is the directory's answer, and not-found is reported exactly when the provider said so |
| ResolverCache.NameCacheTransparent | internal/resolver/resolver.go:255-307 | The same for names: an answer is the directory's only hit, not found means it has none, and ambiguous that it has several, all of them offered |
| ResolverCache.ServedWithinTtl | internal/resolver/resolver.go:311-313 | A row is served unasked only while the answer behind it is within the TTL |
| ResolverCache.NamesServedWithinTtl | internal/resolver/resolver.go:311-313 | The same for name searches |
| ResolverCache.AnyLookups | internal/resolver/resolver.go:176-190 | Over any run of calls, if all the provider said fits fixed directories, every call answered as it would without a cache |
| ResolverCache.Lookup | internal/resolver/resolver.go:176-190 | One call of such a run |
| SlotGrid.GridExact | internal/planner/slots.go:88-109 | For any window: a clock time is on the grid if and only if it lies in the window's minutes a whole number of half hours after the start, with the start's seconds |
| SlotGrid.ExpandedExact | internal/planner/slots.go:60-83 | The number of entries, and the entry at each place under either order: one without a table type for any table, and else one for each type in the caller's order inside each time |
| SlotGrid.InsideWindowExactly | internal/planner/slots.go:104-109 | All times lie inside the window if and only if the start's seconds do not pass the end's or the last step falls short of the end's minute |
| SlotGrid.GridTimeIs | internal/planner/slots.go:148-158 | Minutes turned into a time and back are the same minutes |
| SlotGrid.ClockOrder | internal/planner/slots.go:163-171 | The field-wise comparison is the order of times |
| SlotGrid.CrossAt | internal/planner/slots.go:73-81 | The entry of the i-th time and the j-th table |
| SlotGrid.ExpandSlots | internal/planner/slots.go:60-83 | The nested loops build exactly this; a window is refused exactly when it is inverted, and expands exactly when besides its capacity is not negative |
| SlotGrid.EnumerateTimes | internal/planner/slots.go:88-125 | The stepping loop and the reversal yield the grid in the order the priority asks for, except for the panic of a negative capacity |
| SlotGrid.TurnAround | internal/planner/slots.go:114-116 | The two meeting indices leave the times latest first |
| SlotGrid.CapacityNegativeExactly | internal/planner/slots.go:102-103 | The capacity asked for is negative if and only if the start's minutes are an hour or more past the end's; on the clock face a window expands if and only if it is not inverted |
| SlotGrid.OffClockWindows | internal/planner/slots.go:60-103 | Two windows with minutes off the clock face that pass for not inverted: one stops the program, one has no times at all |
| Planner.BuildPlan | internal/planner/plan.go:71-124 | MissingTz if and only if the venue has no zone, TargetInPast if and only if it has one and the date's midnight is before its present day, BadWindow if and only if neither holds and the window is inverted, and a plan if and only if neither holds and the window expands; the plan has the strategy, the instants and the fire times the request calls for, and the digest of its own bytes |
| Planner.RefusedExactly | internal/planner/strategy.go:87-105 | The strategy is refused for exactly these two reasons |
| Planner.StrategyByStrongestSignal | internal/planner/strategy.go:87-149 | Continuous exactly when the first calendar entry for the date is open, until the time given or else the end of the venue's day; else Explicit exactly when there is an observed or a configured release, at the observed one or else the configured one; else a five-minute probe starting 90 seconds before the later of the present and the day before the date |
| Planner.BookableIsFirstEntry | internal/planner/strategy.go:155-162 | A date is bookable exactly when its first entry in the snapshot is available |
| Planner.FindBookable | internal/planner/strategy.go:155-162 | The search loop answers just that |
| Planner.FireSchedule | internal/planner/plan.go:145-200 | One entry per slot at the strategy's fire time |
| Planner.PlanIsTimed | internal/planner/plan.go:126-191 | Explicit plans drop and fire at their instant, Continuous ones at the present, and Discovered ones drop at the start of the probe and fire halfway through it |
| Planner.PlansFitTheEngine | internal/planner/plan.go:126-191 | One fire time per slot and none before the drop moment, arguments the engine accepts, for Explicit and Discovered the engine's own wake time, and a five-minute probe that ends after now |
| Planner.HashStableExactly | internal/planner/plan.go:65-70 | Two plans of one request at two times have equal bytes if and only if the strategy is Explicit, or Discovered with the same guessed drop, or the times are equal |
| Planner.ContinuousRehashes | internal/planner/plan.go:65-70 | Any goal whose window expands, at a venue with tables open: its plans at two different times have different bytes |
| Planner.DiscoveredStableUntilGuess | internal/planner/strategy.go:230-237 | In particular while the guessed drop is not before either time |
| Planner.SameKindAnyTime | internal/planner/strategy.go:106-148 | The kind of strategy does not depend on the time |
| Planner.HashLeavesBytes | internal/domain/plan.go:73-80 | Setting the hash does not change what is hashed |

## Left out

- SQL text, the driver, HTTP round trips, response classification and the signing subprocess: the store is
  maps and sequences whose transactions may fail, the provider an oracle.
- AES-GCM, SHA-256, Argon2id and memory locking: an ideal AEAD, and digests taken as injective.
- Time zones and Go's date normalisation: a zone is a set of uninterpreted functions to instants; dates and
  times of day in a plan are non-negative, instants count from year 1, and the planner's present lies at
  least 90 seconds after that.
- Invalid UTF-8 in hashed strings: a character stands for a code point.
- QuestService.Service.AnyCalls: runs its calls one after another; calls with one key that overlap are the
  subject of OverlappingCreates, other overlaps (a cancel or a sweep during a create) are not modelled.
- Histories with several live handles on one snipe (only the two runs that overlap are there), a Seal interleaved with a Rotate, and an Advance inside an Advance:
  the code does not protect them.
- Negative durations on the fake clock, which could move it back.
- The `stopped` field of a fake event is membership of its number in a set of the clock, and After, AfterFunc
  and Sleep are all the one scheduling action.
- Engine notifications inside the transition gate, event attributes, logs, audit rows and the cache of
  observed releases: they do not feed back into the state.
- The text form of timestamps in snipe rows and the codecs of intents and payloads: field by field only.
- A drawn quest id that is already taken counts as a failed draw, not as a failed insert.
- Quest planning inside CreateQuest is an oracle; which sentinel a replayed error text is mapped to
  (`internal/service/standard_quest.go:518-535`) is not modelled, only the text.
- What a quest emits before SubscribeQuest has read its history: the stream model starts from there.
- Subscriber numbers wrap at 2^64 in the code; here they do not.
- Parsing of pasted venue URLs, lower-casing of single runes (a function that keeps spaces apart from the
  rest), and JSON itself on the event stream (a codec that decodes no proper prefix of a payload, and rebuilds an
  event with its time in whole seconds and its attributes as strings).
- Failed writes to an event stream: what the client then sees is covered by the cut streams.
- FakeClock.Fake.Advance: requires that the Advance ends, because a method here must; FakeClock.CalmAdvanceEnds
  and FakeClock.RearmingNeverEnds say when it does and when it does not. The theorems about runs have no such
  condition.
- CLI, notifier output, banners, metrics, configuration, tenant lists, stubbed verbs: no state to prove about.
