# vulos-meet: verified model of its stateful core

vulos-meet wraps a LiveKit SFU: it gates tenants, meters participant-minutes and bills them to a
control plane, keeps a ledger of recordings and deletes old ones, limits request rates, guards its
calls to the SFU with a circuit breaker, caps the number of rooms and caches API-key answers. This
project models those parts in Dafny and proves what they keep over whole runs.

| Module | What it models |
|---|---|
| `TenantGate` | room ids `<tenant><sep><rest>`: validate, qualify, split, enforce, filter |
| `UsageKey` | the idempotency key of a usage report |
| `RecordingLedger` | the recording ledger: `Upsert`, `List`, `SetState`, and webhook events as records |
| `RetentionPolicy` | which recordings are past retention: the computation and its meaning |
| `RetentionCaps` | the per-room and the per-tenant cap together |
| `RetentionRule` | the retention rule read off the fields, and what it leaves alone |
| `RetentionSweep` | one sweep of the retention driver, and its counters |
| `RetentionRetry` | what a sweep leaves for the next one: convergence, and when failed deletes are retried |
| `RetentionProtocol` | the sweep cut into steps, with webhooks between any two of them |
| `RetentionQuiet` | runs of those steps without webhooks are the sequential sweeps, and the other way round |
| `RetentionRounds` | two sweeps of one run with webhooks anywhere, and when the second tries again |
| `RecordingHistory` | every field of the ledger, read off the webhooks delivered and the clocks of the sweeps |
| `UsageMetering` | the usage receiver: webhooks open and close spans, a finish reports |
| `UsageArea` | metering is the area under the occupancy curve |
| `UsageStarts` | which rooms are tracked and since when, and what the admin read shows, read off the trace |
| `UsageDelivery` | the control-plane client: bounded queue, retry loop, drop counter |
| `BillingProtocol` | webhooks, queue, worker, lossy link and control plane, interleaved |
| `BillingTotals` | what is booked, pending and dropped over whole runs, against the reports and the areas |
| `BillingCollision` | runs in which two bills share an idempotency key |
| `TokenLine`, `RateLimiter` | the token bucket, and exactly which calls it admits |
| `RateLimiterTraces`, `EvictionLimits` | eviction, rejected calls and `/rtc` over whole traces |
| `CircuitBreaker` | the breaker under concurrent calls |
| `RoomCap` | room admission racing with room creation |
| `ApiKeyCache` | the introspection cache under concurrent introspections |
| `MapSum`, `Ordering` | sums over maps in any order; linear orders, ranks and sorting |

Objects whose methods update fields in the Go code are classes; each method is proved against a
specification function, and the theorems about runs are proved about those functions. A step of a
protocol is one critical section of the Go code. Where Go iterates over a map, the loop here picks
any remaining key. Clocks, network outcomes and the deleter's answers are parameters.

## Where the code and its documentation differ

The model follows the code in each case.

- **A failed delete can be forgotten** (`retention.go:113-124`, `349-352`, `424-427` promise a retry
  by the next pass). As long as the webhooks of one egress are stamped in order and name one tenant and
  room, there are three ways, and no others.
  - Crossed caps: if `0 < MaxPerRoom < MaxPerTenant`, the room cap can empty a busy room in the same sweep
    in which another room's oldest recording fails to be deleted; the tenant cap that selected it is then no
    longer exceeded, and its blob stays until the TTL, if there is one, selects it.
  - The same end reported again: `Upsert` overwrites `EndedAt` (`retention.go:179-181`), and a redelivered
    completion is stamped anew (`recording.go:313-332`), so the recording looks new and the next sweep
    passes it over. This can happen under every enabled policy (`RetentionRounds.RefinishingStopsTheRetry`).
  - A clock that runs backwards: the TTL cutoff is a wall-clock second (`retention.go:294`), so a sweep at an
    earlier clock than the one before passes over what was just past its TTL
    (`RetentionRetry.EarlierClockForgets`, `RetentionRounds.EarlierClockRun`).

  With no webhook in between and the second sweep not at an earlier clock, the promise holds for every ledger,
  clock and deleter if and only if the caps do not cross (`RetentionRetry.RetryGuarantee`); at any clock, if
  and only if there is no TTL either (`RetentionRetry.AnyClockGuarantee`). With such webhooks anywhere, none
  reporting the same end again, the same two conditions are exact over all runs
  (`RetentionRounds.RunRetryTheorem`, `RetentionRounds.AnyClockRunTheorem`).
- **`MaxPerTenant` is not applied after `MaxPerRoom`** (`retention.go:263-265`): both caps count all
  eligible entries (`RetentionPolicy.ExpiredEgressIds`). This selects what the documented order would
  select, for every ledger, entry and clock, if and only if the caps do not cross
  (`RetentionCaps.InTurnTheorem`; `RetentionCaps.CrossedCapsDiffer` is the input where it does not).
- **Two lifetimes of one room can share an idempotency key** (`usage.go:341-345` says they never do):
  exactly if they start in the same second and finish in the same second (`UsageKey.KeyDetermines`,
  `BillingProtocol.KeyIsTakenExactly`). It takes a crowd: two lifetimes within one second, each with enough
  participants for half a minute. The control plane then takes the second report for a repeat of the
  first: it is reported, but neither booked nor pending nor counted as dropped
  (`BillingCollision.SecondBillDisappears`).
- **A key can be introspected more than once per minute** (`apikey.go:22-23`), for two reasons: two lookups
  can miss at once, and then the older answer may overwrite the newer (`ApiKeyCache.RevokedKeyComesBack`);
  and a request that ends in an error caches nothing, so one caller alone may ask again at once
  (`ApiKeyCache.ErrorsAreAskedAgain`). A lookup asks exactly when every answer ever cached for the key is 60
  seconds old or more (`ApiKeyCache.AskedExactlyWhenStale`).
- **"One half-open probe"** (`rooms_livekit.go:348-350`): a call admitted before the gate closed clears
  the half-open mark when it finishes, so a second probe can join the first. There is never more than one
  in any run whose calls last at most D if and only if D is shorter than the cooldown, whatever the
  threshold (`CircuitBreaker.OneProbeTheorem`).
- **`BreakerOpen` "reports whether the breaker is currently rejecting calls"** (`rooms_livekit.go:386-387`):
  it does, but for one case: when the cooldown has passed and a probe is out, calls are rejected and it
  answers false (`CircuitBreaker.LiveKitRoomService.IsBreakerOpen`).

## Assumptions of the protocols

- Retention: one sweeper per ledger, as `main.go` starts it, over the in-memory store. Clocks and stamps are
  arbitrary unless a statement orders them: "at any later clock" orders the clocks of two sweeps, `Orderly` the
  stamps of the webhooks of one egress, which it also asks to name one tenant and room.
- Billing: the control plane books each idempotency key once, as `usage.go:46-53` asks of it, and an
  answer in the 200s means it received the request; requests can be built; nothing is reported after
  `Close`; a reporter is configured. That nothing is overbilled holds in every run. The exact conservation
  theorems are about runs in which no two reported lifetimes of a room start in one second and finish in one
  second (`Spaced`); finishes that report nothing may be redelivered at any time. Webhook stamps are arbitrary
  unless a statement says `Ordered`.
- Limiter: a clock that does not run backwards.
- Breaker: a monotone clock. Room cap: each listing is the SFU's rooms at one moment. API keys: a
  monotone clock, and no request longer than `longest`.

## Model

| member | source | states |
|---|---|---|
| `TenantGate.ValidateTenant` | internal/wrap/tenant.go:147-168 | accepted exactly if 1 to 63 bytes, all of them ASCII letters, digits, hyphens or underscores, none the separator; an empty tenant has its own error |
| `TenantGate.PrefixMeansEnforced` | internal/wrap/tenant.go:104-135 | for every valid tenant, the prefix test of FilterRooms and the parser behind EnforceRoom accept exactly the same ids |
| `TenantGate.FilterRooms` | internal/wrap/tenant.go:123-135 | the result is the order-preserving subsequence of ids EnforceRoom accepts; nothing for an invalid tenant |
| `TenantGate.SplitFindsTheParts` | internal/wrap/tenant.go:81-98 | a valid tenant, the separator and any non-empty rest split back into just these, separators in the rest or not |
| `TenantGate.SplitUndoesQualify` | internal/wrap/tenant.go:65-98 | whatever qualifies splits back into the same tenant and rest |
| `TenantGate.QualifyUndoesSplit` | internal/wrap/tenant.go:65-98 | a split id is its parts joined, and re-qualifies to itself if and only if its rest has no separator |
| `TenantGate.SplitOutcome` | internal/wrap/tenant.go:81-98 | an id splits exactly if it is a valid tenant, the separator and a rest; which error each other id gets |
| `TenantGate.EnforceOutcome` | internal/wrap/tenant.go:104-116 | accepted exactly if the tenant is valid and the id splits into it; a bad tenant is found before a bad room, and that before a foreign one |
| `TenantGate.QualifyOutcome` | internal/wrap/tenant.go:65-76 | qualified exactly if the tenant is valid and the rest is neither empty nor holds the separator; which error else |
| `TenantGate.GateAdmits` | internal/wrap/tenant.go:81-98 | every tenant that comes out of splitting is a valid one |
| `TenantGate.SplitInjective` | internal/wrap/tenant.go:81-98 | ids that split alike are the same id |
| `TenantGate.OneTenantPerRoom` | internal/wrap/tenant.go:100-116 | no id is accepted for two tenants, and an accepted id starts with its tenant and the separator |
| `UsageKey.SecondsRoundDown` | internal/wrap/usage.go:375-380 | seconds round down, before 1970 too, and the zero time counts as second zero |
| `UsageKey.DecimalReadsBack` | internal/wrap/usage.go:346-348 | a printed number, signs included, reads back as the number |
| `UsageKey.KeyReadsBack` | internal/wrap/usage.go:346-348 | a printed key of a gated tenant reads back as its tenant, room, start second and finish second, in this order, even when room names hold colons |
| `UsageKey.KeyDetermines` | internal/wrap/usage.go:346-348 | for gated tenants two keys are equal if and only if tenant, room, start second and finish second are, even when room names hold colons |
| `RecordingLedger.MemRecordingStore.Upsert` | internal/wrap/retention.go:154-189 | the ledger becomes the merge of the record into it; a record without an egress id is refused and changes nothing; what merging comes to is `RecordingHistory.ReplayRemembers` |
| `RecordingLedger.MemRecordingStore.List` | internal/wrap/retention.go:192-201 | every entry once, sorted by egress id, whatever the map order |
| `RecordingLedger.MemRecordingStore.SetState` | internal/wrap/retention.go:204-222 | any state may follow any; stamps as documented; unknown ids change nothing |
| `RecordingLedger.UpsertIdempotent` | internal/wrap/retention.go:151-189 | upserting the same record again, stamps included, changes nothing |
| `RecordingLedger.ReplayReachesMaximum` | internal/wrap/retention.go:154-189 | after any sequence of upserts an egress is known if and only if it was delivered, in a delivered state of the highest delivered rank |
| `RecordingLedger.DeliveriesConverge` | internal/wrap/recording.go:309-349 | deliveries with the same states, in any order and repetition, converge in rank, and in state unless complete and failed events both occur |
| `RecordingLedger.MixedDeliveryFollowsOrder` | internal/wrap/retention.go:166-169 | with both kinds delivered the later one wins, so the exception is real |
| `RecordingHistory.ReplayRemembers` | internal/wrap/retention.go:154-189 | after any upserts an entry carries the last positive size, duration and end delivered for it, the first start, and the last tenant and room that were not empty |
| `RecordingHistory.WebhookSays` | internal/wrap/recording.go:309-363 | which statuses and events report which end, and which sizes and stamps their record carries |
| `RecordingHistory.RunRemembers` | internal/wrap/recording.go:309-349 | in every run with sweeps, at every moment, each entry carries what the webhooks so far said |
| `RecordingHistory.DeletedAtItsSweep` | internal/wrap/retention.go:428 | a Deleted entry was recorded by some step of a run and carries the second of that sweep |
| `RecordingHistory.ExpiredAtItsSweep` | internal/wrap/retention.go:411-422 | an entry past expiry was marked by some step and carries the second of that sweep, unless that is zero and the deletion overwrote it |
| `RecordingHistory.FreedIsReported` | internal/wrap/retention.go:434-436 | what a Deleted entry adds to the bytes freed is the last positive size the webhooks had reported for it when the sweep began that deleted it |
| `Ordering.LessAtFirstDifference` | internal/wrap/retention.go:199 | ids are ordered by the first byte that differs, or by length |
| `RetentionPolicy.NewerLinear` | internal/wrap/retention.go:337-343 | newness, ties broken by egress id, is a strict linear order on distinct recordings |
| `RetentionPolicy.RoomGroupIsTenantAndRoom` | internal/wrap/retention.go:305 | joined by a NUL byte, group keys are equal if and only if tenant and room are, whatever bytes the room holds |
| `RetentionPolicy.GroupBy` | internal/wrap/retention.go:321-328 | each key maps to exactly the recordings with that key, none twice |
| `RetentionPolicy.MarkOldestBeyond` | internal/wrap/retention.go:333-347 | adds exactly the ids of the members with at least `keep` newer ones in the group |
| `RetentionPolicy.MarkScope` | internal/wrap/retention.go:304-315 | one cap rule adds exactly the ids over that cap, in whatever order the groups come |
| `RetentionPolicy.EligibleOnes` | internal/wrap/retention.go:283-290 | exactly the finished recordings that are not gone, none twice |
| `RetentionPolicy.MarkPastTtl` | internal/wrap/retention.go:292-300 | exactly the ids of those past the TTL |
| `RetentionPolicy.ExpiredEgressIds` | internal/wrap/retention.go:278-317 | the selection is exactly: eligible, and past the TTL or with at least MaxPerRoom newer in its (tenant, room) or at least MaxPerTenant newer in its tenant; zero disables |
| `RetentionRule.SelectionInFields` | internal/wrap/retention.go:278-347 | the same in terms of the fields alone: finished, and a TTL or more past its end (or start), or with as many newer finished recordings of its tenant and room, or of its tenant, as the cap |
| `RetentionRule.TenantsAreIsolated` | internal/wrap/retention.go:310-315 | for every ledger, policy and clock, what is selected for a tenant is what would be selected without all other tenants' recordings |
| `RetentionRule.RoomIsolationTheorem` | internal/wrap/retention.go:251-253 | a busy room evicts no other room's recording, for every ledger, recording and clock, if and only if there is no tenant cap |
| `RetentionRule.CapsHoldAfterwards` | internal/wrap/retention.go:302-315 | after a sweep with all deletes confirmed no tenant has more finished recordings than its cap, and no room of a tenant more than its own |
| `RetentionCaps.EnoughKeepers` | internal/wrap/retention.go:330-347 | an entry over a cap has at least `cap` newer ones in its group that are not over it themselves |
| `RetentionCaps.RoomCapImpliesTenantCap` | internal/wrap/retention.go:304-315 | a room cap no tighter than the tenant cap selects nothing the tenant cap does not |
| `RetentionCaps.CrossedCapsDiffer` | internal/wrap/retention.go:263-265 | with crossed caps, a concrete entry is selected that the documented order of the caps would keep |
| `RetentionCaps.InTurnTheorem` | internal/wrap/retention.go:263-265 | counting only what the room cap leaves, as documented, selects the same entries for every ledger, entry and clock if and only if not 0 < MaxPerRoom < MaxPerTenant |
| `RetentionSweep.RetentionMetrics.ObserveRetentionSweep` | internal/wrap/metrics.go:339-349 | folds one result into the four counters |
| `RetentionSweep.RetentionDriver.Visit` | internal/wrap/retention.go:411-437 | one id, whatever the store holds by now: marked expired unless the snapshot shows it so, then deleted if the deleter answers nil; unknown ids change nothing but, for an already expired snapshot entry, the error count |
| `RetentionSweep.IndexById` | internal/wrap/retention.go:406-409 | the index over the listing is the ledger again |
| `RetentionSweep.RetentionDriver.VisitAll` | internal/wrap/retention.go:410-437 | in any order of ids and with any stale snapshot, exactly the selected entries of the current ledger move, by what the snapshot shows, and the result is the totals of the snapshot |
| `RetentionSweep.RetentionDriver.Run` | internal/wrap/retention.go:393-440 | a whole sweep: the selected entries end Deleted or Expired by the deleter's answers, all others untouched; counts, bytes and durations are those of the ledger it started from; counters move by the result |
| `RetentionSweep.OneMoreTotal` | internal/wrap/retention.go:411-437 | the totals of a set of ids grow by exactly one visit's tally, so no id is counted twice and order does not matter |
| `RetentionSweep.VisitedInFields` | internal/wrap/retention.go:411-428 | the state and the two stamps a visit leaves, with whatever snapshot, and nothing else changed |
| `RetentionSweep.SweepBalances` | internal/wrap/retention.go:393-440 | the result balances with the ledger before and after: deletes are the entries newly Deleted, errors those left Expired, bytes and time freed those of the newly Deleted |
| `RetentionRetry.NobodyOverCapMeansWithinCap` | internal/wrap/retention.go:330-347 | a group is within its cap if and only if nobody in it is over the cap |
| `RetentionRetry.ConfirmedSweepConverges` | internal/wrap/retention.go:393-440 | after a sweep with all deletes confirmed the same clock selects nothing, and every room and tenant is within its cap |
| `RetentionRetry.KeepersKeep` | internal/wrap/retention.go:330-352 | as long as the newest `cap` rivals of an entry were not selected, it is over that cap in any later ledger that carries them over |
| `RetentionRetry.SelectedAgain` | internal/wrap/retention.go:278-317 | with uncrossed caps, a selected entry is selected at any later clock, and without a TTL at any clock, from any later ledger in which entries stay in their groups, the unselected ones grow no older, and its own age stands |
| `RetentionRetry.UncrossedCapsRetry` | internal/wrap/retention.go:349-352 | unless the caps cross, and with no webhook in between, every failed delete is selected by the next sweep at any later clock, and without a TTL at any clock |
| `RetentionRetry.CrossedCapsForget` | internal/wrap/retention.go:304-315 | whenever they cross, a concrete ledger has a failed delete that later sweeps select exactly when it is past the TTL |
| `RetentionRetry.AloneIsUpToTheClock` | internal/wrap/retention.go:292-300 | a single recording past its TTL whose delete failed is selected again exactly at the clocks that show it past its TTL |
| `RetentionRetry.EarlierClockForgets` | internal/wrap/retention.go:292-300 | for every policy with a TTL, a failed delete that a second sweep at an earlier clock does not select |
| `RetentionRetry.RetryGuarantee` | internal/wrap/retention.go:349-440 | with no webhook in between and at any later clock, failed deletes are always retried if and only if not 0 < MaxPerRoom < MaxPerTenant |
| `RetentionRetry.AnyClockGuarantee` | internal/wrap/retention.go:349-440 | with no webhook in between and at any clock, if and only if there is no TTL either |
| `RetentionProtocol.StepKeepsInvariant` | internal/wrap/retention.go:393-440 | every webhook and every step of the sweeper keeps the invariant, though the sweeper works from a stale snapshot |
| `RetentionProtocol.RunKeepsInvariant` | internal/wrap/retention.go:393-440 | so it holds in every state of every run |
| `RetentionProtocol.LedgerNeverRegresses` | internal/wrap/retention.go:154-244 | in every run, between any two moments, no entry is lost, no rank falls, and Deleted is final |
| `RetentionProtocol.DeletesAreJustified` | internal/wrap/retention.go:410-437 | a blob delete is answered only for an expired entry whose capture had ended; a Deleted entry had a delete that returned nil |
| `RetentionProtocol.CountersMatchLedger` | internal/wrap/metrics.go:339-349 | between sweeps: deletes counted are the Deleted entries, expiries the Expired or Deleted ones, and the bytes freed are the sum of what each Deleted entry added |
| `RetentionProtocol.FreedOnce` | internal/wrap/retention.go:428-436 | every Deleted entry was recorded by exactly one step of the run, and added the size it had in the snapshot of that sweep |
| `RetentionProtocol.ReachableLedgersAreWellFormed` | internal/wrap/recording.go:309-331 | every reachable ledger meets the conditions the retry theorem asks of a ledger |
| `RetentionQuiet.QuietSweep` | internal/wrap/retention.go:393-440 | from Begin to Finish with no webhook in between, the ledger is swept as by the sequential driver, the counters move by the totals of that sweep, and the ids gone are those the deleter answered nil for |
| `RetentionQuiet.SweepIsARun` | internal/wrap/retention.go:393-440 | whatever a sequential sweep leaves, whichever deletes are confirmed, some run of the steps leaves too |
| `RetentionRounds.OrderlyWebhook` | internal/wrap/recording.go:309-332 | in every run in which the webhooks of one egress are stamped in order and name one tenant and room, a webhook for a known egress names what the ledger has and is not stamped before its end |
| `RetentionRounds.UncrossedCapsTryAgain` | internal/wrap/retention.go:349-352 | in every such run with uncrossed caps, a failed delete is selected by the next sweep at any later clock, and without a TTL at any clock, whatever webhooks come between and during the sweeps, unless one reports the end of that same capture again |
| `RetentionRounds.CrossedCapsRun` | internal/wrap/retention.go:304-315 | for crossed caps, a run from the empty ledger in which a failed delete is selected again exactly when past the TTL |
| `RetentionRounds.EarlierClockRun` | internal/wrap/retention.go:292-300 | for every policy with a TTL, a run without webhooks between two sweeps, the second at an earlier clock, in which a failed delete is passed over |
| `RetentionRounds.RunRetryTheorem` | internal/wrap/retention.go:349-440 | over all runs in which the webhooks of one egress are stamped in order and name one tenant and room, failed deletes whose end is not reported again are retried at any later clock if and only if the caps do not cross |
| `RetentionRounds.AnyClockRunTheorem` | internal/wrap/retention.go:349-440 | over the same runs and at any clock, if and only if there is no TTL either |
| `RetentionRounds.RefinishingStopsTheRetry` | internal/wrap/retention.go:179-181 | for every enabled policy, a run in which the end of a failed delete's capture is reported again and the next sweep passes it over |
| `UsageMetering.SumOpenSpans` | internal/wrap/usage.go:266-268 | the sum of the clamped open spans, in any map order |
| `UsageMetering.UsageReceiver.Apply` | internal/wrap/usage.go:217-283 | the tracked rooms, the report, the minutes metric and the room counter after any event are those of their specification, early returns included; the laws of `UsageArea`, `UsageStarts` and `BillingProtocol` say what that comes to over traces |
| `UsageMetering.UsageReceiver.ObserveMeetRoom` | internal/wrap/metrics.go:158-165 | counts one more of that transition |
| `UsageMetering.UsageReceiver.ObserveMeetMinutes` | internal/wrap/metrics.go:170-177 | adds positive minutes of a named tenant, ignores the rest |
| `UsageMetering.UsageReceiver.Snapshot` | internal/wrap/usage.go:309-333 | one row for each tracked room of the tenant and no other, with accrued plus open time |
| `UsageArea.LiveIsPresence` | internal/wrap/usage.go:222-282 | the tracked spans are exactly the stays read off the trace, each from the join that began it |
| `UsageArea.MeteringIsAreaPlusSkew` | internal/wrap/usage.go:217-283 | for all traces and all stamps, metered time is the area under the occupancy curve plus exactly what the clamp adds |
| `UsageArea.MeteringIsArea` | internal/wrap/usage.go:217-283 | with non-decreasing stamps it is the area |
| `UsageArea.NearestMinute` | internal/wrap/usage.go:360-368 | rounding is within half a minute, halves up, and zero exactly below half a minute |
| `UsageArea.FinishBillsTheArea` | internal/wrap/usage.go:257-282 | a finish reports if and only if its area is at least half a minute, within half a minute of it, and forgets the room |
| `UsageArea.PeakAndJoins` | internal/wrap/usage.go:232-245 | peak and join count are the largest head count and the number of stays begun since the last finish |
| `UsageStarts.TrackedSince` | internal/wrap/usage.go:222-304 | over every trace a room is tracked exactly if a start, join or leave touched it since it last finished, and its start is the one read off the trace |
| `UsageStarts.StartIsRead` | internal/wrap/usage.go:224-229 | that start is the stamp of the last room_started since the last finish, or, if there is none, the reading taken when the room was first touched |
| `UsageStarts.RowReadsTheTrace` | internal/wrap/usage.go:309-333 | a row of the admin read shows that start, the area and what the clamp adds, the head count, the peak and the joins of the trace |
| `UsageStarts.TransitionsAreCounted` | internal/wrap/usage.go:230-271 | the room counter has counted every start and every finish of the trace |
| `UsageDelivery.Tries` | internal/cp/usage.go:245-293 | the retry loop stops at the first final answer and never exceeds its attempts |
| `UsageDelivery.NewUsageClient` | internal/cp/usage.go:134-163 | no client exactly when the URL is empty, else an empty one with the defaults for unset sizes |
| `UsageDelivery.UsageClient.Report` | internal/cp/usage.go:189-200 | empty accounts and non-positive counts are ignored; otherwise queued, or dropped and counted when full |
| `UsageDelivery.UsageClient.Enqueue` | internal/cp/usage.go:206-213 | appended if there is room, else counted as dropped |
| `UsageDelivery.UsageClient.Post` | internal/cp/usage.go:238-293 | it ends with the first answer in 200..299 or 400..499, or when the budget is used up; the drop counter moves by one exactly if the last answer was not in 200..299; however many attempts get through, the event is booked at most once |
| `UsageDelivery.TriesUntilSettled` | internal/cp/usage.go:245-293 | exactly when n attempts are made |
| `UsageDelivery.SuccessIsReached` | internal/cp/usage.go:271-287 | a success within the budget, after failures that are lost or in the 500s, is reached and is the last attempt |
| `UsageDelivery.UsageClient.DrainOne` | internal/cp/usage.go:228-233 | the oldest event in the queue is posted |
| `BillingProtocol.SuccessIsBooked` | internal/cp/usage.go:238-293 | such an event is booked and nothing is dropped |
| `BillingProtocol.StepsArePost` | internal/cp/usage.go:245-293 | the worker's single steps in the protocol amount to the retry loop of Post |
| `BillingProtocol.RoomsCarryTheirNames` | internal/wrap/usage.go:285-304 | a tracked room carries the tenant and short name its id splits into, over every trace |
| `BillingProtocol.RowsCarryTheirNames` | internal/wrap/usage.go:322-330 | a row of the admin read names the tenant and room its id splits into |
| `BillingProtocol.ReportReadsTheTrace` | internal/wrap/usage.go:257-281 | over every trace and for all stamps, an event reports exactly if it is a finish of half a metered minute or more, to the nearest minute, for its tenant, under the key of the start read off the trace and its own stamp |
| `BillingProtocol.ReportsCollide` | internal/wrap/usage.go:335-348 | two reports of a trace share a key if and only if they are of one room and of lifetimes that start and finish in the same seconds |
| `BillingProtocol.RunKeepsKeys` | internal/wrap/usage.go:257-281 | in every run the keys metered are exactly the keys of the reports so far |
| `BillingProtocol.KeyIsTakenExactly` | internal/wrap/usage.go:273-281 | at any moment of any run a new report's key was used before if and only if such a lifetime was reported before |
| `BillingProtocol.RunKeepsInvariant` | internal/cp/usage.go:206-293 | in every run of separate lifetimes every metered report is booked, pending or lost, the pending ones once |
| `BillingTotals.BillsAreConserved` | internal/cp/usage.go:206-293 | in every run of separate lifetimes, at every moment, the minutes reported for an account are those booked plus those pending or counted as dropped and not received; the drop counter counts the dropped reports |
| `BillingTotals.NeverOverbilled` | internal/cp/usage.go:215-293 | in every run, repeated keys or not, the minutes booked never exceed the minutes reported |
| `BillingTotals.FirstInFirstOut` | internal/cp/usage.go:206-233 | in every run reports are posted in the order they were queued, none twice and none skipped |
| `BillingTotals.SettledIsBooked` | internal/cp/usage.go:215-293 | in runs of separate lifetimes they are equal once nothing is pending or dropped |
| `BillingTotals.MetricIsAreaBill` | internal/wrap/metrics.go:167-177 | the meet-minutes metric is the areas of the finished rooms, each to the nearest minute |
| `BillingTotals.ReportedIsAreaBill` | internal/wrap/usage.go:257-281 | so are the minutes reported, over every trace with ordered stamps |
| `BillingTotals.NeverBilledBeyondTheArea` | internal/wrap/usage.go:257-281 | in every run with ordered stamps the minutes booked never exceed the area bill |
| `BillingTotals.AreaIsBilledOrAccountedFor` | internal/wrap/usage.go:257-281 | end to end, in runs of separate lifetimes with ordered stamps: the area bill of the webhooks is what the control plane booked plus what is pending or dropped and not received |
| `BillingCollision.SecondBillDisappears` | internal/wrap/usage.go:335-345 | within every second, a run with ordered stamps that reports and bills by area two minutes, of which one is booked and the other neither pending nor dropped |
| `RateLimiter.Limiter.Allow` | internal/wrap/ratelimit.go:73-101 | decision and buckets are those of the refill-and-cap specification |
| `RateLimiter.Limiter.GCOnce` | internal/wrap/ratelimit.go:106-118 | removes exactly the buckets idle for longer than idleTTL; nothing when it is zero |
| `RateLimiter.Limiter.HandleRtc` | internal/wrap/signal.go:168-175 | a request reaches validation if and only if two successive checks of the same bucket pass |
| `RateLimiter.EarlierClockIsIgnored` | internal/wrap/ratelimit.go:85-94 | a call whose clock is behind its bucket counts as one at the bucket's own moment |
| `RateLimiter.LevelStep` | internal/wrap/ratelimit.go:73-118 | through any operation, safe evictions included, levels only refill up to the cap, and a passing call takes one token |
| `TokenLine.LowestLine` | internal/wrap/ratelimit.go:84-100 | a capped refilling level is the lowest of the cap and one line per earlier operation |
| `TokenLine.Budget` | internal/wrap/ratelimit.go:84-100 | what is taken from some operation on, plus what is left, stays within the cap plus the refill |
| `RateLimiter.AdmissionIsExact` | internal/wrap/ratelimit.go:73-101 | a call is admitted if and only if, counting from every earlier operation and from itself, the admitted calls and this one fit into burst plus rate times elapsed |
| `RateLimiter.OwnCallsDecide` | internal/wrap/ratelimit.go:73-101 | it is enough to count from the earlier calls of the same key and from the call itself |
| `RateLimiter.WindowBound` | internal/wrap/ratelimit.go:73-101 | at most burst + rate * d calls of a key pass in any window of length d |
| `RateLimiterTraces.EvictionIsInvisible` | internal/wrap/ratelimit.go:103-118 | with idleTTL * rate at least burst, evictions at arbitrary points change no decision |
| `EvictionLimits.EarlyEvictionIsNoticed` | internal/wrap/ratelimit.go:103-118 | any shorter idleTTL is given away by some trace |
| `EvictionLimits.EvictionTheorem` | internal/wrap/ratelimit.go:103-118 | eviction is invisible if and only if idleTTL * rate is at least burst, or it is off, or burst is below one token |
| `RateLimiterTraces.RejectedLeavesNoTrace` | internal/wrap/ratelimit.go:70-101 | taking a rejected call out of a trace changes no other decision |
| `RateLimiterTraces.RtcPaysTwice` | cmd/vulos-meet/main.go:389-397 | of one client at most half of burst + rate * d, and of the number of requests whose first check came before the window, come through the second check in a window of length d, however requests interleave |
| `RateLimiterTraces.PromptRequestsPayTwice` | cmd/vulos-meet/main.go:389-397 | if at most w passes between a request's two checks, at most (burst + rate * (d + w)) / 2 of one client come through in a window of length d |
| `RateLimiterTraces.EarlyChecksCount` | internal/wrap/signal.go:168-175 | a trace in which two requests come through in one moment with a burst of two: the early checks have to be counted |
| `CircuitBreaker.LiveKitRoomService.PreCall` | internal/wrap/rooms_livekit.go:351-367 | admits when closed or after the cooldown with no probe out, and then marks the probe |
| `CircuitBreaker.LiveKitRoomService.PostCall` | internal/wrap/rooms_livekit.go:371-384 | success resets everything; a failure counts, clears the probe mark and from the threshold on opens the gate |
| `CircuitBreaker.LiveKitRoomService.IsBreakerOpen` | internal/wrap/rooms_livekit.go:386-392 | open is reported if and only if calls are refused, but for a probe out after the cooldown, when calls are refused and not-open is reported |
| `CircuitBreaker.LiveKitRoomService.Rpc` | internal/wrap/rooms_livekit.go:143-165 | a refused call posts nothing; an admitted one posts its outcome exactly once, also when no token could be minted |
| `CircuitBreaker.ProbesAreSpaced` | internal/wrap/rooms_livekit.go:351-384 | in every concurrent run any two half-open admissions are at least the cooldown apart |
| `CircuitBreaker.AtMostOneProbe` | internal/wrap/rooms_livekit.go:348-367 | while all calls in flight are younger than the cooldown at most one of them is a probe |
| `CircuitBreaker.TwoProbesAtOnce` | internal/wrap/rooms_livekit.go:371-374 | for every threshold, and calls that may last the cooldown, a run with two probes in flight at once |
| `CircuitBreaker.OneProbeTheorem` | internal/wrap/rooms_livekit.go:348-374 | at most one probe at a time, in every run whose calls last at most D, if and only if D is shorter than the cooldown |
| `CircuitBreaker.BreakerAccounting` | internal/wrap/rooms_livekit.go:371-384 | the failure count is the trailing run of failures, the gate is set if and only if it reaches the threshold, and a half-open gate has its latest probe in flight |
| `CircuitBreaker.BreakerReads` | internal/wrap/rooms_livekit.go:351-384 | in every run the failure count, the gate, the moment it reopens and the half-open mark are what the calls so far say |
| `CircuitBreaker.AdmittedExactly` | internal/wrap/rooms_livekit.go:351-384 | in every run a call is admitted if and only if fewer than threshold calls failed since the last success, or it is the first to come a cooldown or more after the last completion |
| `CircuitBreaker.FailingCallerIsThrottled` | internal/wrap/rooms_livekit.go:351-384 | a sequential caller facing only failures is admitted at most threshold + T / cooldown times in time T |
| `RoomCap.SignalGate.EnforceRoomCap` | internal/wrap/signal.go:237-272 | allowed if and only if no cap is configured, or the listing succeeded and has the room or fewer rooms than the cap; which label is counted in each case |
| `RoomCap.SignalGate.ObserveRoomAdmission` | internal/wrap/metrics.go:204-211 | counts one more of that label |
| `RoomCap.StepCommits` | internal/wrap/signal.go:237-272 | only admitting a new room adds to the active and promised rooms, and only within max - 1 plus the joins in progress |
| `RoomCap.RefusedExactly` | internal/wrap/signal.go:237-272 | in every run a join is turned away if and only if its listing failed, or its room was not active while at least max rooms were |
| `RoomCap.RoomsStayBounded` | internal/wrap/signal.go:237-272 | with at most P joins between listing and creation, active rooms never exceed the larger of the initial active-or-pending ones and max - 1 + P |
| `RoomCap.BoundIsReached` | internal/wrap/signal.go:229-236 | for every max and P some run reaches max - 1 + P rooms |
| `ApiKeyCache.CpIntrospector.FromCache` | internal/apikey/apikey.go:168-176 | a hit if and only if the entry is younger than 60 seconds |
| `ApiKeyCache.CpIntrospector.Remember` | internal/apikey/apikey.go:178-182 | the entry is replaced and stamped with the clock |
| `ApiKeyCache.CpIntrospector.Introspect` | internal/apikey/apikey.go:192-225 | a hit asks nobody; nothing but a decoded 200 answer is returned or cached |
| `ApiKeyCache.RunKeepsInvariant` | internal/apikey/apikey.go:168-225 | under any interleaving, cached and returned results are answers of the control plane of bounded age |
| `ApiKeyCache.ResultsAreFresh` | internal/apikey/apikey.go:66-70 | every result handed out is an answer less than 60 seconds plus the longest request old; errors are never results |
| `ApiKeyCache.RevocationTakesHold` | internal/apikey/apikey.go:66-70 | once a key is invalid for good, nobody is told otherwise after that time |
| `ApiKeyCache.AskedExactlyWhenStale` | internal/apikey/apikey.go:22-25 | a lookup sends a request if and only if every answer ever cached for the key is 60 seconds old or more |
| `ApiKeyCache.ErrorsAreAskedAgain` | internal/apikey/apikey.go:22-25 | one caller whose request ends in an error asks again at the same moment |
| `ApiKeyCache.RevokedKeyComesBack` | internal/apikey/apikey.go:178-225 | two requests at once may cache the older answer last: "valid" given at moment 0 is told again after "revoked" given at moment 1, up to the last moment ResultsAreFresh allows |

## Left out

- Floating point: minutes are exact nanoseconds, tokens and seconds are reals; `roundFloat`, the
  two-decimal display of the admin read, is not modelled.
- Counter widths: `uint64` and `int64` counters and sizes are unbounded; sizes and durations are naturals.
- In-place sorting: `sort.Slice` is an insertion sort on values, and the ledger's map of pointers is a
  map of values, so aliasing of its entries is not captured.
- Recording states outside the five constants, which `stateRank` ranks 0.
- Store errors other than "not found", a store that forgets entries, `RunLoop` and its ticker, and what
  the blob deleters do to answer.
- A second sweeper: `SetState` is unguarded, so two of them could walk an entry backwards.
- Recording lifecycle and egress-in-progress metrics.
- `UsageReceiver` without a reporter and nil metrics: reports and metrics are always taken.
- Backoff sleeps, context deadlines, `Close`, and the client's failure to marshal or build a request, which
  the code logs without counting it as dropped.
- Usage events without an idempotency key: the receiver always supplies one.
- Client IP extraction: the limiter's key is a parameter.
- Key hashing: `cacheKey` is taken as collision-free, so the cache is keyed on the key itself.
- JWT and webhook signature checks, HTTP routing and proxying, protobuf, configuration, process supervision.
- Egress authorization and storage rewriting (`egress_authz.go`, `egress_storage.go`, `storage_seam.go`), and
  the web client: they would add easy members only.
