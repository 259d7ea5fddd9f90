# SystemVitals, verified

Dafny models of the parts of SystemVitals where correctness depends on time, interleaving
or arithmetic rather than on one function, with proofs of what those parts promise.
`dafny verify dfyconfig.toml` checks everything.

## What is modelled

**The scheduler lease** (`LeaseProtocol`, `LeaseExclusion`, `LeaseLimits`, `LeaseHistory`,
`LeaseOutcome`, `LeaseObjects`). Any number of clients, one Redis entry with an expiry, requests and replies
in flight, and a clock; each handler of `worker/src/lease.ts` that runs between two awaits is
one step, and `LeaseObjects` has the same handlers as methods on mutable objects. Timers are
exact, ties fire before the expiry, tokens are never drawn twice. Two runs never overlap if
`3d <= ttl` and `bound + 2d <= ttl`, where `d` is the renewal interval and `bound` the time an
acquire reply may take; for every other timing a run that overlaps is constructed. What a run
reports is read off the run itself.

**Billing checkouts** (`BillingAccounts`, `BillingProtocol`, `BillingInvariant`,
`BillingQuiet`, `BillingReconcile`, `BillingSafety`, `BillingLimits`, `BillingFencing`,
`BillingVersion`, `BillingDecisions`, `BillingOrders`, `BillingMisdirection`,
`BillingForgetting`, `BillingEffects`, `BillingCheckout`, `BillingObjects`). Each transaction
holds the account lock, so it is one function of the account's rows. Between transactions any
caller may crash, lose a reply or be overtaken; create requests are executed by Stripe in its
own time, and Stripe reports sessions completely and exactly when asked. A checkout session
and its attempt are the same identifier, since the attempt is the idempotency key. Three results
about the code come with exact conditions:

- A created session can be lost if and only if `settle + gap >= 120000` ms, where `settle`
  bounds how long after its fence a create may be executed and `gap` how long after its
  listing a reconciliation may commit. Listing requests time out after 10 s and the
  transaction that follows waits at most 5 s and runs at most 15 s
  (`billing.service.ts:21-33`, `:722`), so only a process that stalls between the two, or very
  long paging, lets the sum reach the lease. The version check does not notice a session
  that Stripe creates after the listing.
- A reservation (`createCheckout`) writes its own plan into a row that carries the account's
  existing attempt, even when that attempt is for another plan. If the caller then stalls,
  recovery creates a session of the row's plan under the attempt's key, and the account's next
  checkout for the attempt's plan is sent to it. That can come of a reservation if and only if
  the account's attempt is for another order and has no session yet; such a reservation is
  called harmful.
- A session on the user row is forgotten, without a cleanup intent, exactly by the four kinds
  of step that `BillingForgetting` lists. One of them follows a second expiry: when coordinating
  again asks to expire a session for another attempt, the service creates that attempt's session
  and leaves the other one open.

**The overview** (`OverviewSpans`, `OverviewTotals`, `OverviewAggregate`, `OverviewMeaning`).
The loops of `api/src/overview/overview-aggregate.ts` on exact integer milliseconds, rounding
only where the source rounds. The coalescing law makes the doubling loop equal to one pass.

**Slugs** (`Slugs`, `SlugText`, `SlugContention`). Normalisation with Unicode NFD and lower-casing as
arbitrary functions, the search for a free name, and the bounded retry against concurrent
inserters. `uniqueSlug` documents that its result is always valid; that is so below
10^58 - 2 taken names, because the suffix then leaves room for the name.

**Tenancy** (`TenancyModel`, `TenancyInvariant`, `TenancyWrites`, `TenancySafety`,
`TenancyQuotas`, `TenancyEffects`, `TenancyObjects`). Twelve kinds of transaction, sign-ups,
acceptances and deletions over accounts, organizations, memberships, checks and status pages.
A transaction reads, locks its accounts one by one, locks rows, validates and writes in
separate steps, and any other may step in between. Guards that only authorize the caller are
dropped, so the model allows more runs than the code and what holds of its runs holds of the
code's. An organization and its one project are the same identifier.

**Checks** (`CheckStatus`, `CheckUpdate`, `CheckEdits`, `CheckLifecycle`, `CheckObjects`). Creation, editing
and mode conversion, with cron, time zones and trimming as arbitrary functions; and one check
under the watchdog, the prober, pings and edits, each reading before it commits. Three
conditions came out of the proofs: creation accepts TCP targets that every later edit refuses;
the overview predicts the time a heartbeat goes down correctly if and only if its grace is
not negative; and the watchdog's locked write does not re-check the last event, so a ping that
arrives after its read does not save the check.

**Printers and small services** (`Printers`, `TelegramChallenges`, `EmailVerification`).
Shell words, TOML strings and Telegram HTML read back by readers written from POSIX.1 XCU
sections 2.2.2 and 2.2.3 and from the String section of TOML v1.0.0; the limiter on Telegram
links; and the rotation of email verification tokens.

`Options`, `Sets` and `CheckStatus` hold what several modules share. Where the source changes
state in place, classes and loops do so here and are tied to the
functions that the laws are about.

## Model

| member | source | states |
|---|---|---|
| LeaseExclusion.SafeTimingExcludes | worker/src/lease.ts:79-347 | With exact timers, 3d <= ttl (d being both interval and renewal deadline) and acquire replies within a bound with bound + 2d <= ttl, no reachable state has two renewing runs in their callbacks un-aborted, and each such run still has its token in the store |
| LeaseExclusion.InvHolds | worker/src/lease.ts:234-347 | Over every run the entry of a protected client expires no earlier than its next local deadline, and every reply in flight is accounted for |
| LeaseExclusion.ExecuteKeepsClient | worker/src/lease.ts:5-17 | While an entry is held for a protected client, no acquire, renewal or release of anybody else that the store executes disturbs it |
| LeaseLimits.OverlapIffUnsafeTiming | worker/src/lease.ts:79-130 | Two callbacks can overlap if and only if the timing condition fails: for every unsafe timing a run that overlaps is built |
| LeaseLimits.OneIntervalRepliesExclude | worker/src/lease.ts:234-242 | The sizes the code chooses are enough: for a ttl of at least 3 ms and acquire replies within one interval, runs exclude each other |
| LeaseLimits.TwoMillisecondLeaseOverlaps | worker/src/lease.ts:235-235 | A two-millisecond lease, whose interval is rounded up to 1 ms, does not exclude |
| LeaseHistory.RanMeansUnbroken | worker/src/lease.ts:132-232 | A run that reports "ran" held its token in the store without a break from its acquire to its release; no other acquire on the key succeeded in between |
| LeaseHistory.NoForeignTouch | worker/src/lease.ts:5-17 | In every run, each renewal and each release that took effect touched the entry of the client that acquired it |
| LeaseOutcome.ReleaseReplyReports | worker/src/lease.ts:187-228 | When the reply to its release arrives, a run is reported as "ran" if and only if the store did release its token, its callback ended without failing, and no cancellation lies between its start and that reply; otherwise as failed |
| LeaseOutcome.OutcomeTells | worker/src/lease.ts:132-232 | Over every run of the system, a client's outcome is exactly what ended its latest run: "ran" on such a reply, contended on a refused acquire, failed on a failed acquire or release, a lost lease, or the release of a run that failed or was cancelled |
| LeaseOutcome.StoppedRunReleases | worker/src/lease.ts:197-209 | A run that stops asks the store to release its token exactly if, since it began, no renewal was refused, failed or timed out |
| LeaseOutcome.OnlyLiveRunsRenew | worker/src/lease.ts:278-324 | Renewals are sent only while the callback runs, the lease is not lost and the run is not cancelled |
| LeaseOutcome.AloneItRan | worker/src/lease.ts:132-232 | From every state with a free entry, an idle client's undisturbed run comes to "ran" and frees the entry again |
| LeaseProtocol.Interval | worker/src/lease.ts:235-235 | The interval is never zero, and from a ttl of 3 ms on it is the largest number of whole milliseconds of which three fit into the ttl |
| LeaseObjects.LeaseStore.SetIfAbsent | worker/src/lease.ts:82-88 | SET NX PX: granted exactly when no unexpired entry exists, and then held for the whole ttl; otherwise the entry stays |
| LeaseObjects.LeaseStore.RenewIfOwner | worker/src/lease.ts:5-10 | Compare-and-expire: extends exactly an unexpired entry with the same token |
| LeaseObjects.LeaseStore.ReleaseIfOwner | worker/src/lease.ts:12-17 | Compare-and-delete: removes exactly an unexpired entry with the same token |
| LeaseObjects.RedisLease.BeginRun | worker/src/lease.ts:132-143 | An instance that is running refuses; otherwise a fresh token is sent for, as the protocol step says |
| LeaseObjects.RedisLease.OnAcquireReply | worker/src/lease.ts:143-185 | A grant starts the callback under the drawn token and, if the run renews, arms its timer; a refusal ends the run as contended and leaves the instance's token |
| LeaseObjects.RedisLease.OnRenewalTimer | worker/src/lease.ts:278-305 | The interval timer sends one renewal and arms its deadline, unless a stop was requested |
| LeaseObjects.RedisLease.OnDeadline | worker/src/lease.ts:288-297 | An unanswered renewal aborts the callback, counts as lost ownership and marks the run as unsafe to release; no further renewal is pending |
| LeaseObjects.RedisLease.OnRenewReply | worker/src/lease.ts:300-324 | A renewal in time re-arms the timer unless a stop was asked for; a refused one aborts and loses ownership |
| LeaseObjects.RedisLease.OnCancel | worker/src/lease.ts:163-172 | Cancelling aborts the callback and stops renewing |
| LeaseObjects.RedisLease.OnCallbackSettled | worker/src/lease.ts:176-197 | A settled callback stops renewing and waits for a renewal in flight |
| LeaseObjects.RedisLease.OnRenewalStopped | worker/src/lease.ts:197-209 | Releases only when ownership was not lost and no renewal timed out |
| LeaseObjects.RedisLease.OnReleaseReply | worker/src/lease.ts:202-231 | The run is over, its token forgotten, and reported as "ran" if and only if the store confirmed the release, the callback did not fail and nobody cancelled; otherwise as failed |
| BillingSafety.NoSessionIsLost | api/src/billing/billing.service.ts:426-496 | If a create executes within `settle` of its fence and a reconciliation commits within `gap` of its listing, settle + gap < 120000 ms, then at every reachable state, whatever crashes and lost replies happened, a created session was recorded on the user row or as a cleanup intent, or an operation row still carries its attempt |
| BillingSafety.ReconciliationKeepsSession | api/src/billing/billing.service.ts:524-742 | The step that makes it work: an unrecorded session whose row has expired was created before the listing, so the reconciliation finds it and records it before deleting the row |
| BillingSafety.RunKeepsInv | api/src/billing/billing.service.ts:498-1229 | The protocol invariant (distinct fresh tokens; requests, senders and unrecorded sessions each with their fenced row) is kept by every step of every run |
| BillingSafety.CreationIsFenced | api/src/billing/billing.service.ts:973-1192 | A decision to create or to expire a session leaves the caller's row fenced for exactly the attempt and order it names, with its lease renewed; so a caller that creates after a second expiry is fenced too |
| BillingLimits.LossIffUnsafeTiming | api/src/billing/billing.service.ts:498-742 | A session can be lost if and only if settle + gap >= 120000 ms: for every such timing a losing run is built |
| BillingLimits.CreateOutlastsListing | api/src/billing/billing.service.ts:524-742 | The run: a create executes just after the listing by which its row is then judged |
| BillingLimits.BothRowsAreAbandoned | api/src/billing/billing.service.ts:640-657 | Past the abandon horizon such a reconciliation deletes the row although its session exists |
| BillingFencing.SupersededOwnerIsPowerless | api/src/billing/billing.service.ts:323-393 | Once an operation is no longer its owner's, at any later time no step of that owner changes an operation row or the attempt and session columns; it may add an intent, fill in a missing customer and bump the version |
| BillingFencing.SupersededIsHarmless | api/src/billing/billing.service.ts:434-496 | The same of each single step: renewals, completions, uncertain marks and persisted sessions of a superseded owner |
| BillingFencing.RecoveryIssuesNewToken | api/src/billing/billing.service.ts:597-717 | A row that a reconciliation changes carries a token nobody held before, so recovery supersedes |
| BillingFencing.RunFades | api/src/billing/billing.service.ts:323-340 | Over every run nobody regains a row under a token given out before |
| BillingVersion.StepIsCovered | api/src/billing/billing.service.ts:113-134 | Every commit that changes a customer, attempt, session or subscription column bumps billingStateVersion |
| BillingVersion.SameVersionSameColumns | api/src/billing/billing.service.ts:546-563 | Over any run, equal versions mean equal columns: there is no ABA |
| BillingVersion.GuardedCommitsActOnWhatTheyRead | api/src/billing/billing.service.ts:943-963 | A version-guarded commit (coordination, reconciliation, subscription event) changes something only if the customer, attempt, session and subscription columns are exactly those read before Stripe was called |
| BillingReconcile.ReconcileMeaning | api/src/billing/billing.service.ts:524-742 | The loop over expired operations: unexpired rows stay, a row whose session is listed is deleted after recording it, a deleted row was found or past the horizon, at most one row is claimed, and that one is the recovery returned |
| BillingReconcile.ReconcileOneOutcome | api/src/billing/billing.service.ts:574-723 | The same of one expired operation |
| BillingReconcile.RowEndsExactly | api/src/billing/billing.service.ts:574-737 | The same as an exact case distinction: an expired row is recorded and gone, claimed, abandoned past the horizon, or left for later, each on its condition |
| BillingReconcile.OldestGoesOn | api/src/billing/billing.service.ts:564-573 | Of all expired operations that can be continued, a reconciliation continues the oldest, and none only if there is none |
| BillingReconcile.FoundIsRecorded | api/src/billing/billing.service.ts:625-657 | A found session goes to the user row with its page if the account's attempt is its own, else among the intents |
| BillingForgetting.SessionIsForgottenIff | api/src/billing/billing.service.ts:973-1229 | At every reachable state, a step takes a recorded session off the user row without leaving a cleanup intent for it if and only if it is a coordination that decides for a subscription, for the current attempt's own open session or past the idempotency retention, the return of the current attempt's session (after which an open session of an earlier attempt is forgotten), a subscription event, or a reconciliation that finds the current attempt's session and no expired row for this one |
| BillingForgetting.FoundSessions | api/src/billing/billing.service.ts:625-657 | The reconciliation loop puts the session it finds for the current attempt on the user row and makes an intent of exactly the other attempts' sessions it finds |
| BillingDecisions.CreatesForTheOrder | api/src/billing/billing.service.ts:993-1150 | coordinate creates a session, or expires its open predecessor, only for an attempt that then stands for the order asked for, and never beside a live subscription |
| BillingDecisions.AttemptsAreNotAbandoned | api/src/billing/billing.service.ts:1043-1127 | An attempt is replaced only for a subscription, after the idempotency retention, or while its open session is expired |
| BillingDecisions.ReusesTheOpenSession | api/src/billing/billing.service.ts:1029-1042 | A reused session is listed as open, belongs to the attempt, and the attempt is for the order asked for |
| BillingDecisions.RefusalsAreTemporary | api/src/billing/billing.service.ts:1066-1103 | A refused checkout keeps every column, and none is refused once the attempt is older than the retention |
| BillingDecisions.DecidesExactlyWhen | api/src/billing/billing.service.ts:993-1130 | Each decision of coordinate is taken exactly on its condition over the columns, the order and the listing: reuse, wait, expire for a new attempt or for the current one, create for the current attempt, create anew, or the portal |
| BillingDecisions.DecidedColumns | api/src/billing/billing.service.ts:993-1130 | What each decision leaves in the columns: nothing, an ended attempt, a recorded session with its page, or a new attempt with the session to expire, if any |
| BillingDecisions.CoordinateMeaning | api/src/billing/billing.service.ts:943-1133 | A round writes nothing for a changed account, a pending cleanup, a decision to wait or a lost row; otherwise it writes the decision's columns, renews exactly its own row for the decision's attempt, and bumps the version exactly if a column changed or a session or portal is handed out |
| BillingDecisions.SecondRound | api/src/billing/billing.service.ts:1136-1150 | A plan change takes two rounds: once the session to expire is listed as expired and the new attempt has none, coordinating again creates the new attempt's session; while it is listed as open the same expiry is asked for again |
| BillingCheckout.FirstCheckoutSucceeds | api/src/billing/billing.service.ts:800-1229 | From every state in which it may reserve, a first checkout that is left alone and answered comes to a session of its order on the user row and leaves no operation behind |
| BillingCheckout.PlanChangeSucceeds | api/src/billing/billing.service.ts:1043-1192 | So does a checkout for another order than that of the account's open session, once that session is expired |
| BillingCheckout.GoesOnAfter | api/src/billing/billing.service.ts:1133-1182 | After a round a caller reads again, gives up, hands out, opens the portal or creates; it asks for one expiry, and a second one makes it give up if it is for the same attempt and create that attempt's session otherwise |
| BillingCheckout.SubscribedGoesToPortal | api/src/billing/billing.service.ts:993-1028 | A user who turns out to be subscribed is sent to the portal, and the attempt is over |
| BillingEffects.ReservationMeaning | api/src/billing/billing.service.ts:839-899 | A reservation is a fresh lease on one new row for the order under the account's attempt, which is kept if there is one and opened otherwise; all else stays |
| BillingEffects.ReservationAcceptedIff | api/src/billing/billing.service.ts:834-858 | It is accepted if and only if no cleanup is pending and no unexpired operation is a portal visit or a checkout for another order |
| BillingEffects.PortalMeaning | api/src/billing/billing.service.ts:1243-1292 | A portal visit needs a customer, a live paid subscription and no other operation, and is a fresh lease on one new row for that customer |
| BillingEffects.PortalRenewalMeaning | api/src/billing/billing.service.ts:1294-1310 | The portal's fence renews exactly the lease of a portal row its caller still holds |
| BillingEffects.CustomerMeaning | api/src/billing/billing.service.ts:113-134 | The customer is assigned exactly once and at the version read; nothing else changes |
| BillingEffects.EndMeaning | api/src/billing/billing.service.ts:323-393 | Completing deletes and an ambiguous reply marks exactly the row its owner still holds |
| BillingEffects.ReturnMeaning | api/src/billing/billing.service.ts:426-496 | A returned session goes to the user row if the row is still held, has a page and carries the account's attempt, else among the intents; its operation row goes with it |
| BillingEffects.SubscriptionMeaning | api/src/billing/billing.service.ts:1372-1428 | An applied event stores Stripe's status and identifier, and its plan unless an administrator overrode it; override and limits stay, and a live subscription ends the attempt |
| BillingEffects.UserPlanMeaning | api/src/admin/admin.service.ts:510-539 | An administrator's change stores plan, limits and override and keeps the Stripe side of an existing subscription |
| BillingEffects.CleanupMeaning | api/src/billing/billing.service.ts:253-318 | Cleanup drops exactly its intent, for a session on the user row or done with at Stripe, and keeps everything else |
| BillingOrders.SessionsAreAsAsked | api/src/billing/billing.service.ts:1029-1042 | While every reservation opens an attempt, asks for the order of the existing one, or finds that one's session created, then in every run, crashes, recoveries and second expiries included, a checkout that reuses or creates a session is given one of the order it asked for |
| BillingMisdirection.ReservationMisdirectsIff | api/src/billing/billing.service.ts:839-895 | From every state that harmless reservations lead to, and whatever the timing, some continuation without a further harmful reservation hands a checkout a session of another order if and only if the account has an attempt, that attempt is for another order than the reservation's, and it has no session yet |
| BillingMisdirection.HarmfulReservationMisdirects | api/src/billing/billing.service.ts:670-717 | The "if", for every such account state, order and timing: the reserving caller stalls, recovery claims its row and creates a session of the row's order under the attempt's key, and the next checkout for the attempt's own order is sent to it |
| BillingMisdirection.HarmlessReservationNeverMisdirects | api/src/billing/billing.service.ts:839-895 | The "only if": after a harmless reservation no continuation with harmless ones misdirects |
| BillingMisdirection.RowIsClaimed | api/src/billing/billing.service.ts:546-717 | Reconciliation after reconciliation, an expired checkout row of the account's attempt without a listed session is claimed in the end, whatever other rows have expired |
| BillingOrders.RunKeepsOrders | api/src/billing/billing.service.ts:800-1229 | Over such runs every request, sender and session is for its attempt's order, every row too unless that attempt has its session, and a listing that could still be acted on shows the session of every such row |
| BillingObjects.AccountRows.CompleteCheckoutOperation | api/src/billing/billing.service.ts:323-340 | Afterwards the caller owns no such row; one it did own is deleted under a version bump, and nothing else changes |
| BillingObjects.AccountRows.MarkCheckoutOperationUncertain | api/src/billing/billing.service.ts:375-393 | A row its owner still holds ends up marked, under a version bump; no row comes or goes |
| BillingObjects.AccountRows.PersistReturnedCheckoutSession | api/src/billing/billing.service.ts:426-496 | Whatever the fence, the returned session ends up on the user row or among the cleanup intents, and the answer says which; the caller's row is gone |
| BillingObjects.AccountRows.ReserveCheckout | api/src/billing/billing.service.ts:815-899 | Refuses exactly while a cleanup intent or a conflicting unexpired operation exists; otherwise the caller owns a row for its order under the account's attempt, which is kept if there was one |
| BillingObjects.AccountRows.CoordinateCheckout | api/src/billing/billing.service.ts:943-1133 | Stale snapshots, pending cleanups, refusals and lost fences write nothing; for an account read as it is and a held row each action is chosen exactly on its condition; a creation or expiry leaves row and account naming that attempt for the order asked, under a renewed lease |
| BillingObjects.AccountRows.AssignStripeCustomer | api/src/billing/billing.service.ts:113-134 | The customer is assigned once; a lost version asks for a retry |
| BillingObjects.AccountRows.ApplySubscriptionEvent | api/src/billing/billing.service.ts:1372-1428 | Applied exactly when customer and version are those of the snapshot; then status and identifier are Stripe's, the plan too unless overridden by hand, a live subscription clears the attempt, and operations and intents stay |
| BillingObjects.AccountRows.ReconcileCheckoutOperations | api/src/billing/billing.service.ts:546-742 | The in-place loop leaves the rows and returns the recovery of the specification: every expired checkout whose session is listed is gone with its session recorded, and unexpired rows stay |
| BillingObjects.AccountRows.ReconcileOperation | api/src/billing/billing.service.ts:574-737 | A row whose session Stripe lists goes, and that session is then on the user row or an intent; any other row goes only past the horizon; a row that can go on is claimed if and only if none was before, under the fresh owner, with a renewed lease, and as the recovery returned; every other row, the version and all that was recorded stay |
| OverviewSpans.CoalesceSpans | api/src/overview/overview-aggregate.ts:145-161 | The loop that grows the last merged span in place returns the coalescing pass |
| OverviewSpans.PassesCompose | api/src/overview/overview-aggregate.ts:145-161 | coalesce(coalesce(s, g), h) == coalesce(s, h) for all spans and g <= h |
| OverviewSpans.WiderGapNeverAddsSpans | api/src/overview/overview-aggregate.ts:184-187 | A wider gap never yields more spans |
| OverviewSpans.SurvivingGapIsBounded | api/src/overview/overview-aggregate.ts:184-187 | While more than one span survives, the gap is at most the spread of the starts |
| OverviewSpans.DoubleGapUntilFew | api/src/overview/overview-aggregate.ts:182-187 | The doubling loop stops, leaves at most 200 spans, and equals a single pass at its final gap |
| OverviewSpans.SettledGapIsFirst | api/src/overview/overview-aggregate.ts:184-187 | Every gap tried before the final one leaves more than 200 spans |
| OverviewSpans.TimelineSpans | api/src/overview/overview-aggregate.ts:168-194 | The timeline is the presentation of that pass over the sorted outages, at most 200 entries |
| OverviewSpans.TimelineConserves | api/src/overview/overview-aggregate.ts:168-194 | Spans are in order and at least the final gap apart, every outage lies in exactly one, counts and unrounded durations are conserved, and a span is open exactly when an open outage attains its end |
| OverviewSpans.TimelineIgnoresOrder | api/src/overview/overview-aggregate.ts:168-194 | The timeline does not depend on the order of the outages |
| OverviewSpans.OpenFlagMeaning | api/src/overview/overview-aggregate.ts:153-156 | A span is open if and only if an open outage inside it attains its latest end |
| OverviewSpans.PassConserves | api/src/overview/overview-aggregate.ts:145-161 | One pass cuts sorted outages into disjoint, ordered spans at least the gap apart that keep all counts and durations |
| OverviewTotals.ClipOutages | api/src/overview/overview-aggregate.ts:210-222 | The clipping loop keeps the outages of known checks, cut to the range |
| OverviewTotals.TotalsAgree | api/src/overview/overview-aggregate.ts:254-342 | Unrounded account, per-check and per-organization totals coincide when the organization identifiers are distinct and cover the checks |
| OverviewTotals.TotalsSplitByKey | api/src/overview/overview-aggregate.ts:271-276 | Distinct keys that cover every outage split count and duration exactly |
| OverviewTotals.BucketsConserve | api/src/overview/overview-aggregate.ts:314-325 | Unrounded bucket overlaps add up exactly to the broken time |
| OverviewTotals.BucketConservation | api/src/overview/overview-aggregate.ts:314-325 | The n rounded buckets differ from the rounded total by at most (n + 1) / 2 seconds |
| OverviewTotals.CoveredCount | api/src/overview/overview-aggregate.ts:281-282 | Disjoint outages cover exactly as many milliseconds as their durations add up to |
| OverviewTotals.BrokenWithinMonitored | api/src/overview/overview-aggregate.ts:263-268 | A check whose outages are disjoint and start no earlier than its creation is never broken for longer than it was monitored |
| OverviewTotals.UptimeIsAPercentage | api/src/overview/overview-aggregate.ts:263-310 | Every non-null uptime, account-wide included, is within 0..100 under that hypothesis |
| OverviewTotals.UptimeIsTheShare | api/src/overview/overview-aggregate.ts:267-268 | Uptime is the one percentage u with u * monitored == 100 * (monitored - broken), and missing exactly without monitored time |
| OverviewTotals.UptimeFalls | api/src/overview/overview-aggregate.ts:267-268 | It is 100 exactly without broken time, 0 exactly when all monitored time was broken, and falls strictly as broken time grows |
| OverviewMeaning.AccountUptime | api/src/overview/overview-aggregate.ts:263-268 | The account's uptime is reported exactly when some check neither paused nor still without an event was monitored at all; it is 100 when none of these was broken and 0 when each was broken all along |
| OverviewMeaning.RowUptime | api/src/overview/overview-aggregate.ts:306-307 | Each row's uptime is its own check's share of the time it was monitored, and missing for a check that is not counted |
| OverviewMeaning.ClipMeaning | api/src/overview/overview-aggregate.ts:210-222 | The figures are about exactly the outages of known checks, in order, each cut to the instants it shares with the range |
| OverviewMeaning.NeedsFixingMeaning | api/src/overview/overview-aggregate.ts:224-252 | One entry for each down check, since its last listed open outage or else its last event, then one for each up heartbeat whose next event was due before now, with the time its grace ends; each part stably sorted by when it broke |
| OverviewMeaning.MedianMeaning | api/src/overview/overview-aggregate.ts:195-201 | The median in seconds is the middle duration, or the mean of the two middle ones, rounded to the nearest second |
| OverviewMeaning.RoundMeaning | api/src/overview/overview-aggregate.ts:349-349 | Milliseconds are rounded to the nearest second, half a second up |
| OverviewMeaning.KeyMeaning | api/src/overview/overview-aggregate.ts:208-208 | An outage counts for its check, and for the organization of the last listed check with that identifier |
| OverviewMeaning.MonitoredCounts | api/src/overview/overview-aggregate.ts:263-264 | A check is monitored from its creation, within the range, until now |
| OverviewMeaning.BucketWindow | api/src/overview/overview-aggregate.ts:314-317 | A bucket covers the instants from its start up to the next one's, within the range and before now |
| OverviewMeaning.OverlapCounts | api/src/overview/overview-aggregate.ts:318-323 | An outage counts in a bucket for the instants they share |
| OverviewMeaning.PassClusters | api/src/overview/overview-aggregate.ts:145-161 | A pass over sorted outages finds their clusters: within a span each outage begins less than the gap after the end of an earlier one, outages of different spans are at least the gap apart, and the span sums its outages up |
| OverviewMeaning.TimelineClusters | api/src/overview/overview-aggregate.ts:168-194 | The timeline's spans are the clusters of the check's outages, sorted by start and end, at its final gap |
| OverviewMeaning.FinalGapMeaning | api/src/overview/overview-aggregate.ts:182-187 | That gap is a millisecond or a thousandth of the range, doubled only while more than 200 rows were left |
| OverviewMeaning.TimelineRows | api/src/overview/overview-aggregate.ts:188-193 | A row shows the first start, the number of outages, their rounded broken time, and the latest end unless an open outage ends last |
| OverviewAggregate.SortByIsStable | api/src/overview/overview-aggregate.ts:250-252 | The sorts keep the order of equal entries |
| OverviewAggregate.NeedsFixing | api/src/overview/overview-aggregate.ts:224-252 | Down checks since their last listed open outage, then late ones, each part sorted by when it broke |
| OverviewAggregate.MedianSplits | api/src/overview/overview-aggregate.ts:195-201 | The median splits the sorted durations into halves of equal length |
| OverviewAggregate.Summarize | api/src/overview/overview-aggregate.ts:254-268 | The total, the counts, the median, the check of the first longest outage and the account-wide uptime as the share of monitored time that was not broken, from one pass over the outages |
| OverviewAggregate.LongestOf | api/src/overview/overview-aggregate.ts:289-299 | The longest duration, and whether an outage of that length is open |
| OverviewAggregate.TotalsForCheck | api/src/overview/overview-aggregate.ts:300-309 | The figures of one check from its own outages |
| OverviewAggregate.TotalsPerCheck | api/src/overview/overview-aggregate.ts:270-310 | One row with its own figures for each check with outages, in the order of the checks |
| OverviewAggregate.BucketTotals | api/src/overview/overview-aggregate.ts:313-325 | Each bucket holds the rounded overlap of the outages with it |
| OverviewAggregate.OrganizationTotal | api/src/overview/overview-aggregate.ts:328-341 | The rounded duration and the count of the outages of one organization |
| OverviewAggregate.OrganizationBreakdown | api/src/overview/overview-aggregate.ts:327-341 | One such row for each organization, in order |
| OverviewAggregate.AggregateOverview | api/src/overview/overview-aggregate.ts:203-359 | The whole aggregation in terms of the clipped outages, the check of the first longest outage included |
| Slugs.PatternIsNormalForm | api/src/common/slug.ts:123-125 | The slug pattern accepts exactly the non-empty strings of slug characters joined by single inner hyphens |
| Slugs.SlugifyIsValid | api/src/common/slug.ts:109-121 | slugify yields a valid slug for every input, whatever NFD and lower-casing do |
| Slugs.SlugifyKeepsValidSlugs | api/src/common/slug.ts:109-121 | slugify is the identity on valid slugs that NFD and lower-casing leave alone |
| SlugText.SlugifyMeaning | api/src/common/slug.ts:109-121 | slugify keeps the letters and digits of the folded text in order, with one hyphen between two of them exactly where something else stood between them, cut to the longest prefix of 60 characters that does not end in a hyphen; a text without any becomes "untitled" |
| SlugText.NormalFormIsDetermined | api/src/common/slug.ts:115-120 | There is only one such text: a slug is determined by its letters and by which of them join |
| SlugText.TransliteratesEachChar | api/src/common/slug.ts:39-44 | The letters without a canonical decomposition become slug characters in place, and every other character stays |
| SlugText.StripsEachMark | api/src/common/slug.ts:110-113 | Combining marks are dropped and nothing else is |
| SlugText.CandidateMeaning | api/src/common/slug.ts:143-147 | A numbered name is the longest prefix of the base that leaves room and does not end in a hyphen, a hyphen, and the number in decimal |
| Slugs.CandidatesDiffer | api/src/common/slug.ts:141-146 | Candidates of different numbers differ, for every base |
| Slugs.FindUniqueSlug | api/src/common/slug.ts:137-147 | The loop over n stops and returns the specification's slug |
| Slugs.UniqueSlugIsFirstFree | api/src/common/slug.ts:137-147 | The result is free, every earlier candidate is taken, and it is found within the number taken + 1 candidates |
| Slugs.CandidateValidity | api/src/common/slug.ts:141-145 | A suffixed name of a valid base is valid if and only if its suffix leaves room for a character |
| Slugs.UniqueSlugIsValid | api/src/common/slug.ts:131-147 | For a valid base and fewer than 10^58 - 2 taken names the result is a valid slug that is not taken |
| SlugContention.SlugTable.Insert | api/src/common/create-with-unique-slug.ts:41-44 | The unique constraint: an insert of a taken slug fails and changes nothing |
| SlugContention.CreateWithUniqueSlug | api/src/common/create-with-unique-slug.ts:38-52 | For callers that open a transaction per attempt, creation fails exactly when each of the twenty attempts lost the race to an insert by others; otherwise the first attempt that did not inserted the name it had chosen, free until then |
| SlugContention.ExhaustionNeedsTwentyForeignInserts | api/src/common/create-with-unique-slug.ts:38-52 | In every interleaving, a creator ends exhausted only after twenty pairwise disjoint read-to-write windows, each holding an insert by somebody else |
| SlugContention.BatchOfTwentySucceeds | api/src/common/create-with-unique-slug.ts:17-24 | At most twenty concurrent creators with no other writers all succeed, with distinct slugs, in every complete interleaving |
| SlugContention.BatchCanFailIffLargerThanTwenty | api/src/common/create-with-unique-slug.ts:17-24 | A same-name batch can fail if and only if it is larger than twenty |
| TenancySafety.EveryOrganizationHasItsCreatorAsOwner | api/src/members/members.service.ts:389-545 | In every interleaving of role changes, removals, acceptances, transfers, deletions and sign-ups, every organization's creator is a user and an owner of it |
| TenancySafety.OwnerLocksExclude | api/src/members/members.service.ts:374-398 | Because of that the owner rows of an organization are a non-empty lock set: two transactions never both hold them |
| TenancySafety.PagesNeverListForeignChecks | api/src/status-pages/status-pages.service.ts:61-75 | In every interleaving with check moves, no status page lists a live check of another project |
| TenancySafety.CountMeansAll | api/src/status-pages/status-pages.service.ts:61-75 | Comparing the number of rows found with the number asked for accepts exactly lists without repetition whose checks are all in the project |
| TenancySafety.WriteKeepsOther | api/src/billing/account-entitlements.service.ts:47-69 | A commit leaves valid what every other transaction validated under its own locks |
| TenancySafety.RunKeepsInv | api/src/organizations/organizations.service.ts:234-346 | Rows, locks and validated facts stay consistent over every run |
| TenancySafety.ValidationIsSound | api/src/organizations/organizations.service.ts:262-317 | What a transaction checks under its locks is all it needs when it writes later |
| TenancyQuotas.QuotasAreNeverExceeded | api/src/checks/checks.service.ts:225-264 | From every reachable state within quota, no interleaving of creations, moves, transfers, deletions and sign-ups takes an account over its check or organization limit, unless its plan or limits are changed |
| TenancyQuotas.StepStays | api/src/billing/account-entitlements.service.ts:84-121 | The same of each single step |
| TenancyQuotas.LimitChangeBreaksIff | api/src/admin/admin.service.ts:510-539 | A change of plan or limits breaks the quota if and only if it allows less than the account uses |
| TenancyQuotas.TransferStays | api/src/organizations/organizations.service.ts:303-333 | A transfer is within the recipient's limits: his checks and the transferred ones together fit |
| TenancyQuotas.MoveStays | api/src/checks/checks.service.ts:711-753 | A cross-account move fits the destination; one within an account changes no count |
| TenancyQuotas.AccountLocksNeverDeadlock | api/src/billing/account-entitlements.service.ts:47-64 | Account locks are taken in increasing order, so no reachable state has a cycle of transactions waiting for them |
| TenancyEffects.TransferredCreatorship | api/src/organizations/organizations.service.ts:325-332 | After a committed transfer the recipient is the creator, his checks are his own and the organization's, the old creator's the rest of his, and nothing else changed |
| TenancyEffects.TransferAcceptedIff | api/src/organizations/organizations.service.ts:262-323 | A transfer is accepted if and only if the creator is still the one seen, the recipient is an owner, and his plan fits his organizations and checks after it |
| TenancyEffects.MovedCheck | api/src/checks/checks.service.ts:711-753 | A committed move leaves the check in the destination and not in its old project, whose pages show the rest of their lists; nothing else changed |
| TenancyEffects.WithoutCheckMeaning | api/src/checks/checks.service.ts:89-111 | Taking a check off a page's list leaves the others, in order |
| TenancyEffects.MoveAcceptedIff | api/src/checks/checks.service.ts:672-735 | A move is accepted if and only if check and destination are as seen and, across accounts, the destination's plan fits its checks after it |
| TenancyEffects.UpdatedRole | api/src/members/members.service.ts:426-489 | A committed role change gives the member that role and changes nothing else |
| TenancyEffects.RemovedMember | api/src/members/members.service.ts:491-519 | A committed removal deletes that membership and nothing else |
| TenancyEffects.MembershipAcceptedIff | api/src/members/members.service.ts:400-519 | A member other than the creator can be removed or given any role; the creator can only stay an owner |
| TenancyEffects.CreatedOrganization | api/src/organizations/organizations.service.ts:104-130 | A committed creation adds one organization with its creator as only owner and changes nothing else |
| TenancyEffects.OrganizationAcceptedIff | api/src/organizations/organizations.service.ts:104-113 | It is accepted if and only if the plan fits one organization more |
| TenancyEffects.CreatedCheck | api/src/checks/checks.service.ts:225-264 | A committed creation adds one check to the organization and changes nothing else |
| TenancyEffects.CheckAcceptedIff | api/src/checks/checks.service.ts:225-264 | It is accepted if and only if the creator is still the one seen and his plan fits one check more |
| TenancyEffects.RemovedOrganization | api/src/organizations/organizations.service.ts:348-400 | A committed deletion takes the organization with exactly its members, checks and pages |
| TenancyEffects.DeletedUser | api/src/admin/admin.service.ts:167-257 | A committed deletion takes the account with exactly its memberships |
| TenancyEffects.DeletionAcceptedIff | api/src/admin/admin.service.ts:167-257 | It is accepted if and only if the user created no organization that still exists |
| TenancyEffects.RemovalAcceptedIff | api/src/organizations/organizations.service.ts:348-400 | Deleting an organization, or a check, is accepted if and only if it is still there under the creator that was seen |
| TenancyEffects.PageAcceptedIff | api/src/status-pages/status-pages.service.ts:61-75 | Writing a page is accepted if and only if its project is the one seen and its list names live checks of it, each once |
| TenancyEffects.CreatedPage | api/src/status-pages/status-pages.service.ts:120-160 | A committed page holds the list it was given, and nothing else changed |
| TenancyEffects.UpdatedPage | api/src/status-pages/status-pages.service.ts:175-215 | So does an updated page, which stays in its project |
| TenancyEffects.ChangedLimits | api/src/admin/admin.service.ts:510-539 | A change of plan or limits stores exactly that |
| TenancyEffects.DeletedCheck | api/src/checks/checks.service.ts:793-803 | A committed deletion takes exactly that check |
| TenancyEffects.SignedUpAccount | api/src/auth/auth.service.ts:60-114 | A sign-up adds one account that owns one new organization, and nothing else |
| TenancyEffects.AcceptedInvitation | api/src/members/members.service.ts:284-372 | An accepted invitation adds one membership that is not an owner's |
| TenancyEffects.AloneItCommits | api/src/billing/account-entitlements.service.ts:47-121 | Every operation that passes its checks comes to its commit when no other transaction is under way |
| TenancyWrites.WriteFramed | api/src/checks/checks.service.ts:711-753 | Every write stays within the accounts, organizations, project and check its transaction has locked |
| TenancyWrites.MoveKeepsData | api/src/checks/checks.service.ts:89-111 | A moved check has left every page of its old project |
| TenancyWrites.RemovalKeepsData | api/src/admin/admin.service.ts:167-257 | Deleting an organization or a user who created none leaves no dangling row and every creator an owner |
| TenancyObjects.AccountLocks.LockUsers | api/src/billing/account-user-lock.ts:9-11 | Locks every named account once, in increasing order |
| TenancyObjects.TenancyRows.CreateOrganization | api/src/organizations/organizations.service.ts:114-123 | Organization and owner membership are inserted together |
| TenancyObjects.TenancyRows.TransferCreatorship | api/src/organizations/organizations.service.ts:325-332 | Afterwards the recipient is the creator; every other creator, and every other column, is as it was |
| TenancyObjects.TenancyRows.CreateWithinAccountQuota | api/src/checks/checks.service.ts:225-264 | A check is inserted if and only if the account has room, and the account is then still within its limit |
| TenancyObjects.TenancyRows.MoveCheck | api/src/checks/checks.service.ts:89-111 | The loop over the source pages removes the check from each before the check changes project |
| TenancyObjects.TenancyRows.AssertChecksInProject | api/src/status-pages/status-pages.service.ts:61-75 | Accepts exactly lists without repetition of live checks of the project |
| TenancyObjects.TenancyRows.CreateStatusPage | api/src/status-pages/status-pages.service.ts:120-160 | A page is created if and only if its project exists and the list is accepted |
| CheckUpdate.FillUpdate | api/src/checks/check-update.ts:116-167 | The record of columns filled field by field is the specified update, with the same first error |
| CheckUpdate.FillHeartbeat | api/src/checks/check-update.ts:169-282 | The heartbeat half of it |
| CheckUpdate.FillActive | api/src/checks/check-update.ts:284-352 | The active half of it |
| CheckUpdate.CreatesAreWellFormed | api/src/checks/checks.service.ts:287-375 | Created checks are heartbeat-shaped (period xor schedule, grace set, active columns null) or active-shaped (target, interval, timeout set, heartbeat columns null) |
| CheckUpdate.UpdatesAreWellFormed | api/src/checks/check-update.ts:116-352 | Every accepted edit, of any row, leaves a check in one of those two shapes |
| CheckUpdate.ConversionsRestart | api/src/checks/check-update.ts:263-276 | A conversion to heartbeat starts over as NEW with no event; no other edit touches status or last event |
| CheckUpdate.UpdatesAreIdempotent | api/src/checks/check-update.ts:107-352 | Applying an accepted edit again changes nothing, needs no plan check and mints no ping slug |
| CheckEdits.EditStores | api/src/checks/check-update.ts:114-345 | An accepted edit stores each field it gives (texts trimmed, blank ones cleared, a given period or schedule replacing the cadence) and keeps each field it leaves out, except those of a mode the check leaves |
| CheckEdits.EditAcceptedIff | api/src/checks/check-update.ts:114-345 | An edit is accepted if and only if its type is known, its texts fit, and the columns of its mode come out complete and valid: one cadence, a grace and a schedule cron understands, or a target, an interval and a timeout |
| CheckEdits.CreationStores | api/src/checks/checks.service.ts:287-375 | Creation is accepted if and only if there is one valid cadence, or a target of the mode, and stores exactly what it was given |
| CheckUpdate.PlanFloorCheckedIff | api/src/checks/check-update.ts:278-352 | The plan's minimum interval is checked, against the new effective interval, if and only if the cadence moved |
| CheckUpdate.TcpTargetMeaning | api/src/checks/check-update.ts:354-372 | The TCP validator accepts exactly host:port with a decimal port in 1..65535 and no scheme, split at the last colon |
| CheckEdits.PortsInRangeAreAccepted | api/src/checks/check-update.ts:354-372 | A host without a scheme is accepted with a port written in decimal if and only if the port is from 1 to 65535 |
| CheckEdits.HttpTargetMeaning | api/src/checks/check-update.ts:317-321 | An HTTP target is anything that begins with either scheme |
| CheckUpdate.CreatedHeartbeatCanBeRenamed | api/src/checks/checks.service.ts:287-375 | A created heartbeat can be renamed at once |
| CheckUpdate.CreatedActiveCanBeRenamedIff | api/src/checks/checks.service.ts:830-845 | A created TCP check can be renamed if and only if its target also passes the editor's stricter test; an HTTP check always |
| CheckUpdate.SchemedTargetIsCreatedButNotEdited | api/src/checks/checks.service.ts:840-844 | A concrete target that creation accepts and every later edit refuses |
| CheckLifecycle.RecoveriesFollowDowns | worker/src/probe-handler.ts:90-95 | In every run of a check, every recovery alert directly follows a down alert |
| CheckLifecycle.DownsAreSeparated | worker/src/watchdog.ts:109-132 | Two down alerts without a recovery between them have a pause, resume or conversion to heartbeat between them |
| CheckLifecycle.DownMeansAlerted | worker/src/watchdog.ts:109-132 | At every reachable state a check is down if and only if the last thing logged of it is a down alert |
| CheckLifecycle.StepsAlertOnChange | worker/src/probe-handler.ts:55-107 | Every sweep, probe and ping leaves exactly the status and last event it should, and alerts if and only if it took the check down or brought it back |
| CheckLifecycle.SelectionsAreDisjoint | worker/src/probe-scheduler.ts:33-41 | On well-formed rows the prober selects exactly the HTTP and TCP checks that are not paused, the watchdog only heartbeats that are up or in grace, and never one without an event |
| CheckLifecycle.EachActorKeepsToItsMode | api/src/ping/ping.service.ts:45-51 | Over every run the watchdog changes only heartbeats, probes only HTTP and TCP checks, pings only heartbeats |
| CheckLifecycle.SweptWasOverdue | worker/src/watchdog.ts:68-79 | The watchdog downs only what was overdue when it was read, and is still overdue under the lock if event and cadence are unchanged |
| CheckLifecycle.SweepMayDownAFreshCheck | worker/src/watchdog.ts:109-123 | A ping between read and write is not noticed: for every heartbeat, period or cron, and every instant at which a first ping is overdue and a new one is not, there is a run in which the check goes down at the moment of its last event |
| CheckLifecycle.CronHeartbeatsGetOverdue | worker/src/watchdog.ts:48-79 | Every cron heartbeat whose schedule never fires before the event it is asked from, and whose grace is not negative, has such an instant |
| CheckLifecycle.PredictionAgreesIff | api/src/overview/overview-aggregate.ts:96-127 | The overview's predicted down time is, at every instant, when the watchdog finds an up heartbeat overdue if and only if its grace is not negative |
| CheckObjects.CheckTable.FindOverdue | worker/src/watchdog.ts:48-79 | The candidate filter returns exactly the selected checks, in order |
| CheckObjects.CheckTable.SweepOverdue | worker/src/watchdog.ts:39-161 | An undisturbed sweep downs exactly the overdue checks, with one alert each, and counts them |
| CheckObjects.CheckTable.Sweep | worker/src/watchdog.ts:90-143 | The locked transaction of one candidate writes only a row that is still up and has a cadence |
| CheckObjects.CheckTable.HandleProbe | worker/src/probe-handler.ts:55-107 | A probe result is recorded and alerted on only at a change between down and not down |
| CheckObjects.CheckTable.RecordPing | api/src/ping/ping.service.ts:41-108 | A ping brings a heartbeat up and reports a recovery exactly when it was down; other checks answer as unknown |
| Printers.ShellQuoteReadsBackIff | frontend/lib/agent-connection-config.ts:29-31 | A quoted value reads back as one shell word equal to it, in any context, if and only if it holds no NUL (sections 2.2.2 and 2.2.3 of POSIX.1 XCU) |
| Printers.TomlString | frontend/lib/agent-connection-config.ts:33-71 | The loop returns the value escaped character by character between quotation marks |
| Printers.TomlStringReadsBack | frontend/lib/agent-connection-config.ts:33-71 | Every string of Unicode scalar values reads back as itself as a TOML v1.0.0 basic string, in any context |
| Printers.EscapeHtmlIsPerCharacter | worker/src/telegram-alert.ts:23-30 | Four replacements one after the other are one replacement per character |
| Printers.EscapeHtmlReadsBack | worker/src/telegram-alert.ts:23-30 | Escaped text reads back as the text and holds no angle bracket or quotation mark |
| TelegramChallenges.ChallengeTable.ClaimChallenge | api/src/telegram/telegram-connections.service.ts:259-327 | A claim is a duplicate exactly if the update was delivered, pending exactly if an undelivered earlier challenge is younger than its lease, throttled exactly if neither holds and six challenges of other updates are counted, and otherwise issued; every claim keeps each destination at no more than six stored challenges in any window and one challenge per update |
| TelegramChallenges.InsertionStaysLimited | api/src/telegram/telegram-connections.service.ts:296-307 | An insertion after fewer than six counted challenges keeps every window of a minute, less the clock lag, at six |
| TelegramChallenges.FullMinuteIffNoLag | api/src/telegram/telegram-connections.service.ts:296-307 | Full minutes hold at most six challenges if and only if the database's clock never lags the API's |
| TelegramChallenges.ChallengeTable.Connect | api/src/telegram/telegram-connections.service.ts:89-172 | A link connects at most once ever, exactly when delivered, unused and unexpired, to a project the caller may use that has no channel for the destination; every other attempt names the first objection and changes nothing |
| TelegramChallenges.ChallengeTable.MarkDelivered | api/src/telegram/telegram-connections.service.ts:214-226 | Marks exactly a pending challenge as delivered |
| TelegramChallenges.ChallengeTable.Delete | api/src/telegram/telegram-connections.service.ts:344-356 | Removing challenges breaks no limit |
| EmailVerification.EmailChannel.RotateToken | api/src/channels/email-verification.service.ts:218-290 | A fresh token replaces the old one, never for a verified channel and at most once a minute |
| EmailVerification.EmailChannel.AcknowledgeSent | api/src/channels/email-verification.service.ts:194-207 | An acknowledgement takes effect exactly on its own rotation, which is then the newest |
| EmailVerification.EmailChannel.ClearReservation | api/src/channels/email-verification.service.ts:164-181 | So does giving a failed sending's cooldown back |
| EmailVerification.EmailChannel.Verify | api/src/channels/email-verification.service.ts:95-152 | Verifies exactly the newest token, unexpired and once; answers expired exactly for that token past its time |

## Left out

- BillingSafety.NoSessionIsLost: does not model that Stripe forgets an idempotency key after a day, so a create repeated under an older attempt returns the same session here.
- BillingSafety.NoSessionIsLost: takes complete session listings for granted, and that a definitive refusal creates nothing.
- BillingCheckout.FirstCheckoutSucceeds: supposes, like BillingCheckout.PlanChangeSucceeds, that Stripe has no session of the attempt identifier that is drawn, and that each call is answered.
- BillingVersion.GuardedCommitsActOnWhatTheyRead: does not cover checkoutSessionExpiresAt, which no decision reads, nor the operation rows, whose renewals do not bump the version; rows are guarded by their owner tokens instead (BillingFencing).
- BillingMisdirection.ReservationMisdirectsIff: is about states reached by harmless reservations and continuations without a further harmful one; which of several harmful reservations is to blame is not asked.
- BillingSafety.NoSessionIsLost: counts a session as safe once it was recorded, also if it is forgotten later; BillingForgetting says exactly when that happens.
- LeaseExclusion.SafeTimingExcludes: does not cover runs with `renew: false`, which nothing keeps alive, nor `acquire`, `renew` and `release` called outside `run`; clock drift between store and client is not modelled.
- TenancySafety.EveryOrganizationHasItsCreatorAsOwner: takes a row-locking query as one step; that PostgreSQL re-checks rows that changed while the query waited is not modelled.
- TenancyQuotas.AccountLocksNeverDeadlock: concerns the sorted account locks only; membership rows are not always locked in one order.
- CheckLifecycle.RecoveriesFollowDowns: is about the order of commits; alerts are queued after them and may be delivered in another order.
- CheckLifecycle.EachActorKeepsToItsMode: is about a check that some creation made; administrators' pauses and resumes are the same steps as a member's.
- OverviewTotals.UptimeIsAPercentage: takes it as a hypothesis that the outages of one check are disjoint, which a database trigger maintains; it is not part of this model.
- OverviewAggregate.AggregateOverview: uses exact milliseconds where the source divides into floating-point seconds, and a stable insertion sort for the library sort.
- Slugs.SlugifyKeepsValidSlugs: supposes that NFD and lower-casing leave the slug alone, as they do all ASCII slugs.
- SlugContention.CreateWithUniqueSlug: is for callers that open a transaction per attempt; check creation (`checks.service.ts:318-370`) retries inside one transaction, which a violated constraint aborts.
- Printers.ShellQuoteReadsBackIff: its reader stops at expansions, which quoted words never contain.
- TelegramChallenges.ChallengeTable.Connect: takes the existence of the project and the caller's membership as given, and does not model channels removed later.
- TelegramChallenges.ChallengeTable.ClaimChallenge: takes the destination's lock as one step and the update identifier's uniqueness as kept, without the retry after a violated constraint.
- EmailVerification.EmailChannel.Verify: takes token hashes as never repeating and leaves out the form of raw tokens.
- TenancyModel: authorization of callers, invitations before their acceptance, slugs of organizations and checks, channel exclusions and legacy billing blocks.
- CheckUpdate: the schema's fourth check type, which no operation creates or accepts.
- Listing and ranking of subscriptions, the legacy subscription reconciliation, and the portal's and webhook's HTTP surface: they choose one value from a list and would add only easy members.
- OAuth state signing, HMAC, SHA-256, random tokens and DNS: opaque by nature.
- Duration and relative-time texts, React components, GraphQL resolvers, guards, mail and Telegram delivery, process shutdown and readiness files.
- LeaseObjects.RedisLease: timers and promises appear as handlers called by an environment; their scheduling is the protocol's.
- TenancyObjects: single writes only; the interleaving of transactions is in TenancyModel, on values.
