# Verified models of the account orchestrator

This project models the decision-making core of the Telegram account orchestrator and proves what it
keeps over whole runs, not just over one call. Each module is named after what it models:

| module | what it models |
|---|---|
| Common | optional values, counting, ASCII text |
| AgentService, AutoLoop, DraftingCalls, AutoLoopRuns | the message rows of a negotiation, one auto-loop iteration (as a function of the state, and as the step-by-step class method proved equal to it), what one iteration leaves behind as conditions on its inputs, and safety over any sequence of iterations |
| TargetKeys, TaskTargets | which target texts name one chat, and the supersession of older negotiations by newer ones |
| ReadinessStore, ReadinessPolicy, ProbeFairness, ProbeWorker, ProbeSlots | readiness snapshots, when a probe is due, oldest-first batches, fairness over cycles, one deep probe, and the in-flight slots under every interleaving of processes and event loops |
| RuleLists, TargetMerge | merging duplicate chat targets across the tables and JSON columns that name them |
| RateText, ConcessionLadder | printing a rate and reading it back; the price ladder whose state travels through that text |
| FkRepair | archive-then-delete repair of orphan rows in one transaction |
| SessionMaterial, SessionMigration | the encrypted session envelope, encrypting the session column, changing its key |
| RateLimiter | per-account pacing with jitter and flood windows |
| SessionResolve, ClientPool | which session an account resolves to; who owns session locks and temporary directories |

The outside world is arbitrary: senders, draft generators, guards, file systems, ciphers, clocks and
random draws are parameters, and the theorems hold for all of them. Clocks are explicit readings that do
not run backwards where a theorem says so. Code that updates state step by step is a class whose methods
are proved equal to a function of the old state; the run theorems are lemmas about that function.
`dafny verify dfyconfig.toml` verifies everything.

## Where the code differs from what it says

Each of these is a theorem below: a concrete witness, the exact condition, or both.

- The send cooldown counts from the creation of the sent row, which is the creation of its draft
  (src/ai_agent/service.py:70-111), so two autonomous sends can be 10 seconds apart:
  `AutoLoopRuns.CooldownDoesNotSpaceSends`; exactly when it cannot happen: `AutoLoopRuns.DocumentedSpacingIff`.
- A risk flag or final summary stops the next call, not the call that drafted the flagged message:
  `AutoLoopRuns.FlaggedSendIff`, `AutoLoopRuns.FlaggedDraftIsSentByItsOwnCall`.
- The back-off after an authorization failure (3600 s by default) never takes effect beyond the error
  lifetime (1800 s by default): `ReadinessPolicy.AuthBackoffHonouredIff`.
- Probes that leave no snapshot behind slow the queue down, and a whole batch of them starves everyone
  behind it: `ProbeFairness.FairProbing`, `ProbeFairness.SilentBatchStarves`; when a probe leaves none:
  `ProbeWorker.WhenACheckWrites`. The docstring of the deep probe says it never raises:
  `ProbeWorker.PropagatesIff`.
- The in-flight set is there to keep worker and operator probes of one account apart. As deployed they are
  different processes with a set each, and inside one process they run on different event loops, which the
  lock is not made for: `ProbeSlots.ProbeSlotExclusion`, `ProbeSlots.TwoProcessesProbeTogether`,
  `ProbeSlots.ThreadSwitchSharesSlot`. A release that meets the lock from the wrong loop, or is cancelled
  waiting for it, leaves the slot taken for ever: `ProbeSlots.AbandonedIff`, `ProbeSlots.AbandonedForGood`,
  `ProbeSlots.ForeignLockAbandonsSlot`.
- The merge planner compares only its own canonical row with the duplicates; two duplicates sharing an
  account get past it: `TargetMerge.EscapesPlanIff`, `TargetMerge.DuplicatePairEscapesPlan`. src/core/database.py:195 switches autoflush
  off, so the clash query there does not see earlier moves and the unique index stops the merge instead;
  the theorems cover both settings.
- A merge rewrites neither the target lists of governed campaigns nor the payloads of queued gateway jobs,
  which go on naming deleted targets: `TargetMerge.StillNamedIff`, `TargetMerge.CampaignNamesDeletedTarget`.
- The ladder documents two concessions before a final best offer; with quotes and counters in every turn
  the count stays at one for ever: `ConcessionLadder.UninterruptedLadderStalls`,
  `ConcessionLadder.SecondConcessionOverRunsIff`. The last worded offer outlives the ladder
  (`ConcessionLadder.OfferOutlivesLadder`), and sell counters can fall below the configured minimum or
  below what is already offered (`ConcessionLadder.FirstSellCounterBelowMinimumIff`,
  `ConcessionLadder.SecondSellCounterBelowOfferIff`).
- An archive entry left by an earlier repair makes a reused rowid's row disappear unarchived:
  `FkRepair.ReusedRowidIsLost`, `FkRepair.RestorableIff`.
- The repair can delete every orphan and still roll back: the database can admit a delete that leaves a
  reference behind, and the final test then fails: `FkRepair.FinalCheckFailsIff`,
  `FkRepair.SiblingHidesReference`.
- The encryption migration can raise after it has committed, and re-keying peels a layer off a nested
  envelope: `SessionMigration.Accounts.Migrate`, `SessionMigration.NestedEnvelopeChangesReading`.
  The number of plaintext rows it reports afterwards counts envelopes of unknown versions (same contract).
- A flood window reported while a wait sleeps out an earlier one is erased:
  `RateLimiter.ReportedWindowIsErased`; exactly what a wait leaves recorded: `RateLimiter.FloodWindows`. A first action may wait: `RateLimiter.FirstActionWaitsIff`. The
  number `wait` returns as the actual wait leaves out the time slept in a flood window:
  `RateLimiter.ReturnedWaitOmitsFlood`.
- The cheap session probe reports a file that the resolver cannot open as usable:
  `SessionResolve.ProbeAgreesIff`.
- `connect_account` builds its client outside its cleanup block, so a raising constructor leaks the lock
  for the life of the process: `ClientPool.StepKeepsSoundIff`, `ClientPool.OrphanedForGood`.

## Model

| member | source | states |
|---|---|---|
| AgentService.CooldownSeconds | src/ai_agent/service.py:97-100 | the cooldown always lies between 60 and 300 seconds, whatever the digest |
| AgentService.NewRows | src/ai_agent/service.py:325-353 | rows a sync stores are inbound, carry a Telegram id, and that id was on no row before |
| AgentService.NewRowsCoverItems | src/ai_agent/service.py:325-353 | every fetched message with an id is known after the sync |
| AgentService.ResyncInsertsNothing | src/ai_agent/service.py:325-353 | fetching the same messages again stores nothing |
| AutoLoop.EffectiveDelay | src/ai_agent/auto_loop.py:322-323 | the loop delay is between 10 and 3600 seconds for any configured value |
| AutoLoop.TaskLoop.SyncInbound | src/ai_agent/service.py:296-356 | the fetch loop stores exactly the new rows and counts them; a failed fetch stores none |
| AutoLoop.TaskLoop.GenerateDraft | src/ai_agent/service.py:185-234 | success replaces every draft by the one new draft and opens the approval stage; failure changes nothing |
| AutoLoop.TaskLoop.ApproveSend | src/ai_agent/service.py:236-294 | the newest draft becomes sent exactly when it has text, the guard allows it and the sender succeeds; nothing else changes |
| AutoLoop.TaskLoop.SkipWaiting | src/ai_agent/auto_loop.py:117-147 | skips exactly when the last outbound is unanswered and the call is automatic, and says so in the audit |
| AutoLoop.TaskLoop.SkipDuplicate | src/ai_agent/auto_loop.py:149-180 | skips exactly when the body repeats the last sent one and the call is automatic |
| AutoLoop.TaskLoop.SkipCooldown | src/ai_agent/auto_loop.py:74-115 | skips exactly when the cooldown of the last sent row is still running and the call is automatic |
| AutoLoop.TaskLoop.ColdStartCall | src/ai_agent/auto_loop.py:336-445 | the cold-start branch computes the specified new state, audit trail and outcome |
| AutoLoop.TaskLoop.ExistingDraftCall | src/ai_agent/auto_loop.py:447-540 | the existing-draft branch computes the specified new state, audit trail and outcome |
| AutoLoop.TaskLoop.DraftCall | src/ai_agent/auto_loop.py:621-742 | the branch after a sync computes the specified new state, audit trail and outcome, which `DraftingCalls.DraftRows` describes by its inputs |
| AutoLoop.TaskLoop.SyncCall | src/ai_agent/auto_loop.py:542-619 | sync failures and the no-new-inbound exit, each with its audit row, before the drafting branch |
| AutoLoop.TaskLoop.ProcessTask | src/ai_agent/auto_loop.py:182-744 | the whole iteration, early exits in code order, equals the step function that `DraftingCalls.CallEffects` describes by its inputs and the run theorems are about |
| DraftingCalls.WithoutDraftsOfConcat | src/ai_agent/service.py:207-213 | replacing the drafts goes row by row and keeps the order of all other rows |
| DraftingCalls.NoDraftNoChange | src/ai_agent/service.py:207-213 | rows without a draft stay as they are |
| DraftingCalls.DroppingADraft | src/ai_agent/service.py:207-213 | dropping any one draft first makes no difference |
| DraftingCalls.EntersIsNoExit | src/ai_agent/auto_loop.py:197-333 | the early exits are passed exactly when the call is permitted and on, the task open and not overtaken, no stop condition set, the cap not reached and the delay over or the call forced |
| DraftingCalls.StopFactsIff | src/ai_agent/service.py:40-58 | stop conditions are set exactly when the newest outbound row that carries facts carries a final summary or a risk flag |
| DraftingCalls.FreshDraftRows | src/ai_agent/auto_loop.py:659-742 | a draft made by the same call goes out exactly when the guards hold for the rows before it, it has text, and guard and sender agree; it stays the last row either way |
| DraftingCalls.WaitingDraftRows | src/ai_agent/auto_loop.py:447-540 | the newest waiting draft is marked sent exactly under the same conditions, and nothing else changes |
| DraftingCalls.DraftRows | src/ai_agent/auto_loop.py:621-742 | after the sync, in either mode: exactly when the call is forced or the chat does not owe a reply, and a body comes, the draft is stored, approval opened and the stage taken over; only an autonomous task sends it |
| DraftingCalls.CallEffects | src/ai_agent/auto_loop.py:182-744 | every call, by its inputs: which rows, status and stage it leaves, which calls draft, which send and which only store what they read; mode, summary, cap and delay are never touched |
| DraftingCalls.NewDraftIff | src/ai_agent/service.py:207-229 | in either mode a call leaves a new draft behind exactly when it is let in, has no draft waiting, opens the chat or finds something to answer, gets a body, and does not send it |
| DraftingCalls.SupervisedCallDrafts | src/ai_agent/auto_loop.py:627-657 | a supervised call that is let in, finds something to answer and gets a body ends with exactly one draft, the last row, carrying that body, its facts and the clock reading; approval is asked for, the stage taken over, nothing sent |
| DraftingCalls.SupervisedCallIsQuiet | src/ai_agent/auto_loop.py:627-657 | any other supervised call changes nothing but the rows it read |
| DraftingCalls.CallTrail | src/ai_agent/auto_loop.py:182-744 | a call appends at most two audit rows; a send with its branch, a drafting after a sync and a supersession each show there exactly when they happened |
| DraftingCalls.AttemptOfDraft | src/ai_agent/auto_loop.py:447-540 | how a send attempt ends: outcome, audit row and loop clock by guard, cooldown and answer, a passing fault told from a failure |
| DraftingCalls.AttemptOfFreshDraft | src/ai_agent/auto_loop.py:659-742 | the same for a draft stored by the call, its guards read from the rows before it |
| DraftingCalls.CallEnds | src/ai_agent/auto_loop.py:182-744 | how every call ends by its inputs: too early or stopped without touching the loop clock, the sync failures, nothing new, waiting, a failed draft, a stored draft, or an attempt to send |
| AutoLoopRuns.RunOf | src/ai_agent/auto_loop.py:182-744 | every sequence of calls, operator edits and outside answers from any state makes a run, so the run theorems cover all of them |
| AutoLoopRuns.CallKeepsCounts | src/ai_agent/auto_loop.py:182-744 | one call records at most one send, adds exactly that many sent rows, keeps at most one draft, and without new inbound rows neither drafts nor sends once something went out |
| AutoLoopRuns.SingleDraft | src/ai_agent/service.py:207-226 | over any run, forced calls and operator edits included, there is never more than one draft row |
| AutoLoopRuns.SentRowsAreRecordedSends | src/ai_agent/service.py:278-283 | over any run the sent rows are the initial ones plus one per recorded send |
| AutoLoopRuns.CapStopsSends | src/ai_agent/auto_loop.py:309-319 | no call sends once the cap is reached, forced or not |
| AutoLoopRuns.MessageCap | src/ai_agent/auto_loop.py:309-319 | over any run sent rows never exceed the larger of the initial count and the cap |
| AutoLoopRuns.SendsWithinReplies | src/ai_agent/auto_loop.py:606-619 | over any stretch of an automatic run, sends are at most inserting syncs plus one credit for a waiting draft or a first message |
| AutoLoopRuns.OneReplyPerSend | src/ai_agent/auto_loop.py:336-642 | over a whole automatic run there is at most one send more than there were syncs that stored a reply |
| AutoLoopRuns.ReplyBetweenSends | src/ai_agent/auto_loop.py:336-642 | between two recorded sends some call stored at least one new inbound row |
| AutoLoopRuns.AutomaticSendIsGuarded | src/ai_agent/auto_loop.py:197-333 | whenever an automatic call sends, every entry condition, guard and cooldown held in that very call, and the loop clock is set to its end |
| AutoLoopRuns.AutomaticSendsAreGuarded | src/ai_agent/auto_loop.py:197-333 | the same for every send of every automatic call of any run |
| AutoLoopRuns.LastRunMoves | src/ai_agent/auto_loop.py:734-736 | the loop clock never moves back and never past the end of the call that set it |
| AutoLoopRuns.LastRunNeverBeforeSend | src/ai_agent/auto_loop.py:734-736 | at every later point of a run the loop clock is at or after each earlier send |
| AutoLoopRuns.SendSpacing | src/ai_agent/auto_loop.py:321-333 | two automatic sends are at least the clamped delay apart, and the later one comes 60 to 300 seconds after the creation of the newest sent row |
| AutoLoopRuns.CooldownDoesNotSpaceSends | src/ai_agent/service.py:70-111 | a concrete timely run with two autonomous sends 10 seconds apart |
| AutoLoopRuns.DocumentedSpacing | src/ai_agent/service.py:97-111 | consecutive automatic sends of any run are a cooldown apart whenever the first row was sent as it was created or the loop delay covers the cooldown |
| AutoLoopRuns.NextSendAtEarliest | src/ai_agent/auto_loop.py:321-333 | after any run ending in a send, a reply lets the next call send the moment both the cooldown since creation and the loop delay are over |
| AutoLoopRuns.DocumentedSpacingIff | src/ai_agent/service.py:97-111 | after an automatic send of any run, every next send is a cooldown later exactly when the row was sent as it was created, the loop delay covers the cooldown, or the rows stop all sends |
| AutoLoopRuns.NoRepeatedSend | src/ai_agent/service.py:141-158 | an automatic send never repeats the body of the previous sent row, up to normalisation, in any of the three branches |
| AutoLoopRuns.QuietCallKeepsLastSent | src/ai_agent/auto_loop.py:182-744 | a call that records no send leaves the newest sent row as it was, whatever it drafts or stores |
| AutoLoopRuns.CallKeepsWellFormed | src/ai_agent/service.py:207-226 | no call puts a sent row behind a draft or leaves two drafts |
| AutoLoopRuns.ConsecutiveSendsDiffer | src/ai_agent/service.py:141-158 | over any run, an automatic send never repeats the automatic send before it, up to normalisation, whatever happened in between |
| AutoLoopRuns.StopFactsFreezeRows | src/ai_agent/auto_loop.py:281-307 | once the newest facts carry a summary or risk flag, no later call of any run changes a row or sends |
| AutoLoopRuns.DraftedSendIff | src/ai_agent/auto_loop.py:336-742 | exactly which calls, forced or not, send a message they drafted themselves, as a condition on the inputs |
| AutoLoopRuns.ExistingDraftIsUnflagged | src/ai_agent/auto_loop.py:447-540 | a draft that was there before the call is never sent with the stop conditions set |
| AutoLoopRuns.FlaggedSendIff | src/ai_agent/auto_loop.py:281-307 | a call ends with a message sent and the stop conditions set exactly when it drafted that message itself, its branch guards let it through and the generated facts are flagged |
| AutoLoopRuns.FlaggedSendsOfRunIff | src/ai_agent/auto_loop.py:281-307 | the same at every call of every run, forced calls included |
| AutoLoopRuns.FlaggedDraftIsSentByItsOwnCall | src/ai_agent/auto_loop.py:281-307 | such a call: a concrete input |
| AutoLoopRuns.CallStatus | src/ai_agent/auto_loop.py:214-248 | a call pauses an open row exactly when a newer one holds the target, and never reopens a closed one |
| TargetKeys.NormalizeGivesCanonical | src/ai_agent/task_target_dedupe.py:33-65 | every normalised key is empty, an unpadded integer or a clean lower-case handle |
| TargetKeys.CanonicalIsFixed | src/ai_agent/task_target_dedupe.py:33-65 | every such key normalises to itself |
| TargetKeys.NormalizeIsIdempotent | src/ai_agent/task_target_dedupe.py:33-65 | normalising twice is normalising once |
| TargetKeys.FixedPointsAreCanonical | src/ai_agent/task_target_dedupe.py:33-65 | the fixed points of normalisation are exactly the canonical keys |
| TargetKeys.EmptyKeyIff | src/ai_agent/task_target_dedupe.py:42-65 | a text has no key exactly when it is blank, has nothing after its '@', holds a NUL, or is an integer of more than 4300 digits |
| TargetKeys.LettersFold | src/ai_agent/task_target_dedupe.py:47 | exactly the 26 capital letters are lowered |
| TargetKeys.SameKeyIff | src/ai_agent/task_target_dedupe.py:33-65 | two texts share a key exactly when they are integers of one value or names equal up to case, padding and one leading '@' |
| TargetKeys.AtSignIsOptional | src/ai_agent/task_target_dedupe.py:33-65 | a text that does not start with '@' has the key of the same text behind one |
| TargetKeys.CaseAndPaddingIgnored | src/ai_agent/task_target_dedupe.py:33-65 | case and surrounding blanks never change the key |
| TargetKeys.LeadingZerosIgnored | src/ai_agent/task_target_dedupe.py:33-65 | leading zeros of an integer within the digit limit never change the key |
| TaskTargets.NewerIsStrictTotalOrder | src/ai_agent/task_target_dedupe.py:72-78 | newer-than is irreflexive, transitive, and decides any two rows with distinct ids; a later creation wins, then the higher id, and a row without a creation time is the oldest |
| TaskTargets.FindNewerActiveDuplicate | src/ai_agent/task_target_dedupe.py:103-124 | finds a rival exactly when some newer open row names the same chat, however it is spelled, and then the newest of them, whatever order the rows come in |
| TaskTargets.NewestStaysActive | src/ai_agent/auto_loop.py:224-248 | the newest active row of a target is never paused by supersession |
| TaskTargets.OthersArePaused | src/ai_agent/auto_loop.py:224-248 | every processed row that was not the newest of its target ends paused |
| TaskTargets.SupersessionConverges | src/ai_agent/auto_loop.py:224-248 | processed in any order, a row ends active exactly when it was the newest active row of its target |
| TaskTargets.AtMostOneActivePerTarget | src/ai_agent/auto_loop.py:224-248 | after every row was processed once, two rows of one target are not both active |
| TaskTargets.OlderSpellingIsPaused | src/ai_agent/auto_loop.py:224-248 | a processed row ends paused whenever a newer open row names the same chat in any spelling |
| TaskTargets.SpellingsOfOneChat | src/ai_agent/task_target_dedupe.py:33-65 | with or without '@', in other case or padded, a text names the same chat |
| TaskTargets.PaddedIdsAreOneChat | src/ai_agent/task_target_dedupe.py:33-65 | an id with leading zeros names the same chat as without |
| TaskTargets.LoopCallProcesses | src/ai_agent/auto_loop.py:224-248 | a real auto-loop call is such a processing step |
| ReadinessStore.CampaignReadyIffTrusted | src/clients/readiness_store.py:208-296 | a row shows as ready for campaigns exactly when its account may serve them, is active and without error, and its snapshot is trusted |
| ReadinessStore.LifetimeByStatus | src/clients/readiness_store.py:143-154 | a snapshot without an end of life of its own lasts as long as its status does |
| ReadinessStore.ShownReadiness | src/clients/readiness_store.py:180-232 | what the dashboard shows for a snapshot of each status, trusted, stale or expired |
| ReadinessStore.Store.Upsert | src/clients/readiness_store.py:70-107 | one row per account is written, clipped and stamped, and no other row changes |
| ReadinessStore.Store.MarkReadyAfterSuccess | src/clients/readiness_store.py:420-431 | the ready write with its lifetime |
| ReadinessStore.Store.MarkUnauthorized | src/clients/readiness_store.py:434-444 | the unauthorized write, without an expiry of its own |
| ReadinessStore.Store.MarkTempConnect | src/clients/readiness_store.py:447-462 | the transient-failure write with its lifetime |
| ReadinessStore.Store.MarkReadinessError | src/clients/readiness_store.py:465-486 | the error write with the session-material lifetime |
| ReadinessStore.TrustAfterMark | src/clients/readiness_store.py:163-172 | only a successful probe makes an account trusted, for exactly the shorter of its lifetime and the trust window |
| ReadinessPolicy.DueIsThreshold | src/clients/readiness_worker_policy.py:161-194 | for a fixed snapshot an eligible account turns due once, at the earlier of expiry and status back-off |
| ReadinessPolicy.DueIff | src/clients/readiness_worker_policy.py:133-194 | an account is due only if allowed, unreserved, active, not quarantined and of no excluded purpose; then at once when its session cannot be resolved, and otherwise exactly with session material, no active runtime and a snapshot that is over |
| ReadinessPolicy.SkippedIff | src/clients/readiness_worker_policy.py:133-194 | the exact condition of each skip reason, in their order of precedence |
| ReadinessPolicy.SelectedPicksOldest | src/clients/readiness_worker_policy.py:197-229 | the batch is as many due accounts as fit, and no due account left out is older than one taken |
| ReadinessPolicy.DueStaysDue | src/clients/readiness_worker_policy.py:133-194 | once due, still due later |
| ReadinessPolicy.FreshReadyIffTrusted | src/clients/readiness_worker_policy.py:171-174 | the worker leaves an eligible account alone as fresh exactly when its snapshot is trusted |
| ReadinessPolicy.CampaignReadyIsNotProbed | src/clients/readiness_worker_policy.py:171-174 | campaign-ready on the dashboard and fresh for the worker are the same thing |
| ReadinessPolicy.DueAfterMark | src/clients/readiness_worker_policy.py:161-194 | the exact re-probe time after each kind of write |
| ReadinessPolicy.AuthBackoffHonouredIff | src/clients/readiness_worker_policy.py:176-179 | the authorization back-off is honoured exactly when it does not exceed the error lifetime |
| ReadinessPolicy.SortKeysSorts | src/clients/readiness_worker_policy.py:227-228 | the sorted keys are ascending and the same multiset |
| ReadinessPolicy.SelectProbeCandidates | src/clients/readiness_worker_policy.py:197-229 | the selected ids are as many due accounts as fit, oldest first; each skip counter counts the accounts meeting that reason's condition; due plus skipped is all accounts |
| ProbeFairness.SelectionIsSmallest | src/clients/readiness_worker_policy.py:227-229 | the selected ids are exactly the smallest keys among the due accounts, as many as fit the batch |
| ProbeFairness.PassedOver | src/clients/readiness_worker_policy.py:227-229 | a cycle that passes a due account over selects a full batch of accounts ahead of it |
| ProbeFairness.AheadShrinks | src/clients/readiness_worker_policy.py:197-229 | every such cycle leaves a batch less its silent probes fewer accounts ahead, even though others become due meanwhile |
| ProbeFairness.FairProbing | src/clients/readiness_worker_policy.py:197-229 | with at most u probes per cycle that leave no snapshot, u below the batch size b, an account that stays due is selected within floor((n-1)/(b-u))+1 cycles |
| ProbeFairness.BatchAheadExcludes | src/clients/readiness_worker_policy.py:227-229 | a whole batch of due accounts ahead keeps an account out of the selection |
| ProbeFairness.SilentBatchStarves | src/clients/readiness_worker_policy.py:197-229 | a batch of due accounts ahead that never leave a snapshot keeps an account from ever being selected, however long the run |
| ProbeFairness.UnmarkedProbesStarve | src/clients/readiness_worker.py:115-124 | when no probe of a cycle writes, whoever was passed over is passed over at every later time |
| ProbeWorker.WhenACheckWrites | src/clients/readiness_worker.py:90-312 | exactly which endings of a deep probe write a snapshot, and only success writes a ready one |
| ProbeWorker.WritesByConnection | src/clients/readiness_worker.py:175-301 | which snapshot, with which code and lifetime, each end of a connection attempt writes: success, an unauthorized session, a held lock that meets a ready row or not, a network failure, any other refusal, an exception |
| ProbeWorker.PropagatesIff | src/clients/readiness_worker.py:96-312 | a deep probe, described as never raising, raises exactly when the slot lock turns it away, loading the account fails, or it is cancelled while connecting or giving the client back |
| ProbeWorker.Slots.TryAcquire | src/clients/readiness_worker.py:53-68 | a call that gets under the lock takes the slot exactly when it was free in its process; one that is turned away changes nothing |
| ProbeWorker.Slots.Release | src/clients/readiness_worker.py:71-73 | a release that gets under the lock frees the slot; one that is turned away leaves it taken |
| ProbeWorker.Slots.Body | src/clients/readiness_worker.py:126-301 | the early returns, the connection outcomes and the exception handler write what the report says and nothing else |
| ProbeWorker.Slots.DeepCheckOne | src/clients/readiness_worker.py:104-312 | every way out gives the slot back unless the lock turns the release away, which leaves it taken; a call that found it taken, or never got to look, changes nothing |
| ProbeSlots.MoveKeepsExclusive | src/clients/readiness_worker.py:53-73 | every step of every caller keeps one caller under the lock of a process and its set equal to the slots somebody has, as long as no thread switch falls inside the lock's own test, or the process has one event loop |
| ProbeSlots.ProcessIsExclusive | src/clients/readiness_worker.py:38-73 | so over every interleaving of such steps, arrivals and cancellations |
| ProbeSlots.ProbeSlotExclusion | src/clients/readiness_worker.py:53-73 | two callers have the slot of one account at once only if they belong to different processes, or their process runs several loops and a thread switch fell inside the lock's test |
| ProbeSlots.TwoProcessesProbeTogether | scripts/run_readiness_worker.py:61 | the worker's process and another one both past acquire for one account: a concrete interleaving |
| ProbeSlots.ThreadSwitchSharesSlot | src/dashboard/operator_control_routes.py:91 | two loops of one process both past acquire for one account: a concrete interleaving |
| ProbeSlots.OneLoopIsUndisturbed | src/clients/readiness_worker.py:53-73 | among callers of one loop nobody ever waits for the lock or loses a release, wherever they are cancelled |
| ProbeSlots.OneLoopSlots | src/clients/readiness_worker.py:38-73 | among callers of one loop the set is exactly the accounts of the callers past acquire that have not released yet, one each |
| ProbeSlots.FinishedCallsLeaveSlotFree | src/clients/readiness_worker.py:311-312 | among callers of one loop an account whose calls all ended, in whatever way, has its slot free |
| ProbeSlots.OnlyTheHolderFrees | src/clients/readiness_worker.py:71-73 | a slot leaves a set only by its own owner's release, whatever the loops and wherever threads switch |
| ProbeSlots.TurnedAwayByOtherLoop | src/clients/readiness_worker.py:39 | whoever turns a caller away is a caller of its process on another loop, under the lock or queued for it |
| ProbeSlots.AbandonedIff | src/clients/readiness_worker.py:71-73 | unless a thread switch falls inside the lock's test, a call ends with its slot still taken exactly when its release met the busy lock bound to another loop, or was cancelled while it waited for the lock |
| ProbeSlots.FinishedCallKeepsSlotIff | src/clients/readiness_worker.py:311-312 | under the same proviso an ended call leaves its account in the set, when nobody else has it, exactly then |
| ProbeSlots.AbandonedForGood | src/clients/readiness_worker.py:53-73 | under the same proviso such a slot is never freed and nobody of the process takes it again |
| ProbeSlots.ForeignLockAbandonsSlot | src/clients/readiness_worker.py:71-73 | two checks on two loops of one process, one of which loses its release: a concrete interleaving |
| RuleLists.ReplaceInList | src/clients/target_dedupe.py:56-93 | the two in-place loops compute substitution and keep-first deduplication of one list, and say whether it changed |
| RuleLists.RuleTable.ReplaceTargetId | src/clients/target_dedupe.py:56-93 | exactly the lists that name the old id are rewritten, and they are counted |
| RuleLists.DedupAroundSubst | src/clients/target_dedupe.py:342-344 | deduplicating before a substitution changes nothing once it is deduplicated after |
| RuleLists.PassesAreSimultaneous | src/clients/target_dedupe.py:342-344 | one pass per duplicate equals one simultaneous substitution and one deduplication |
| RuleLists.PassesCloseReferences | src/clients/target_dedupe.py:342-344 | no rewritten list names a duplicate, and a list that named none is untouched |
| RuleLists.DedupKeepsFirstSeenOrder | src/clients/target_dedupe.py:78-88 | deduplication keeps first occurrences in their order |
| RuleLists.PassesConserveColumn | src/clients/target_dedupe.py:342-344 | a list that names a duplicate ends with what it listed before, each once, in first-seen order, duplicates read as the canonical id; every other column stays as it is |
| TargetMerge.PickCanonicalId | src/clients/target_dedupe.py:38-53 | the row with the most bindings, the lower id on a tie |
| TargetMerge.CanonicalIsUnique | src/clients/target_dedupe.py:38-53 | that choice is unique, so the order of the ids does not matter |
| TargetMerge.DuplicateIds | src/clients/target_dedupe.py:274-275 | the ids to merge are the requested ones except the canonical, sorted without repeats |
| TargetMerge.Session.MoveBindings | src/clients/target_dedupe.py:304-324 | the loop moves every duplicate's binding, or stops because the moved pairs would repeat, under either autoflush setting |
| TargetMerge.Session.RewriteRules | src/clients/target_dedupe.py:342-344 | every rule list ends as after all passes, and the count is the lists rewritten in each pass added up |
| TargetMerge.Session.DeleteTargets | src/clients/target_dedupe.py:349-361 | exactly the duplicates are deleted |
| TargetMerge.Session.Plan | src/clients/target_dedupe.py:279-292 | a request is stopped only for a stated reason; otherwise the rows exist, agree and have no conflict around the picked row |
| TargetMerge.Session.Apply | src/clients/target_dedupe.py:252-386 | success keeps every row of every table with its id, account and other columns, repoints exactly the columns naming a duplicate, drops exactly the duplicates and their probes, and reports exact counts of moved bindings, deleted targets and (list, duplicate) pairs rewritten; each refusal has its cause and status; a dry run and an integrity error change nothing |
| TargetMerge.Session.Route | src/dashboard/scheduler_routes.py:1026-1043 | the request succeeds exactly when it is well posed and no account is bound to two of the merged targets, and then conserves the tables the same way; otherwise nothing changes |
| TargetMerge.MergeConserves | src/clients/target_dedupe.py:304-361 | by index and field: bindings, templates, jobs and deliveries keep number, order, id, account and rest; a target column becomes the canonical id exactly where it named a duplicate; probes go exactly with duplicates; campaigns and gateway jobs stay |
| TargetMerge.RewritesAreNamingPairs | src/clients/target_dedupe.py:342-344 | the reported number of rewritten lists counts each list once per duplicate it named |
| TargetMerge.MovedUniqueIffConflictFree | src/clients/target_dedupe.py:304-324 | moved pairs stay unique exactly when no account was bound to two of the merged targets |
| TargetMerge.ConflictFreeIsNeverRefused | src/clients/target_dedupe.py:165-193 | such a request is never stopped by the planner, whatever row it picks |
| TargetMerge.StopsForAReason | src/clients/target_dedupe.py:279-292 | a request stopped before any write is ill posed or has a real conflict |
| TargetMerge.EscapesPlanIff | src/clients/target_dedupe.py:165-193 | the conflicts that get past the planner are exactly those between two rows it did not pick |
| TargetMerge.DuplicatePairEscapesPlan | src/clients/target_dedupe.py:165-193 | two duplicates sharing an account pass the planner: a concrete input |
| TargetMerge.MergeClosesReferences | src/clients/target_dedupe.py:302-361 | after a merge no binding, template, job, delivery, probe or rule list names a deleted target, and closed foreign keys stay closed |
| TargetMerge.StillNamedIff | src/core/campaign_governance_models.py:24-25 | a deleted target is still named after a merge exactly when a governed campaign or a queued gateway job named it before |
| TargetMerge.CampaignNamesDeletedTarget | src/scheduler/campaign_governance.py:468-470 | a request the route carries out that leaves a campaign's pair map naming a deleted target |
| RateText.ParsePremiumPct | src/ai_agent/otc_profit.py:31-98 | the scanning loop returns the last accepted token |
| RateText.FmtShape | src/ai_agent/strategy.py:37-39 | a printed rate is sign, whole part, and at most two decimals without trailing zeros |
| RateText.ParseOfPrintedRate | src/ai_agent/otc_profit.py:31-98 | a printed rate reads back as itself rounded exactly when that lies within 500 |
| RateText.RoundTrip | src/ai_agent/strategy.py:37-39 | for every rate within 500, reading the printed text gives it rounded to two decimals |
| RateText.DottedNumber | src/ai_agent/otc_profit.py:86 | a number may lack digits before or after its dot, but not both |
| RateText.KeywordGoesFirst | src/ai_agent/otc_profit.py:51-78 | without a percent sign nothing is read, and a keyword-led rate goes before every token |
| RateText.TokenInside | src/ai_agent/otc_profit.py:83-98 | a percent-terminated token reads the same wherever it stands in a text |
| RateText.LastRateCounts | src/ai_agent/otc_profit.py:83-98 | of two printed rates in one text the last in range counts, the first only when the last is out of range or taken for a size |
| RateText.RoundedMonotone | src/ai_agent/strategy.py:37-39 | printing keeps order |
| RateText.RoundedTwice | src/ai_agent/strategy.py:37-39 | printing what was read back prints the same |
| RateText.RoundedBelowIff | src/ai_agent/strategy.py:37-39 | a rate prints below m hundredths exactly when it is more than half a hundredth under m, ties to even |
| ConcessionLadder.WorseQuotesNeverRankBetter | src/ai_agent/otc_profit.py:120-152 | tiers are monotone in the quote on both sides, and counters start exactly past the buyer's maximum or below the seller's target |
| ConcessionLadder.MergedTier | src/ai_agent/otc_profit.py:120-152 | which band of quotes gets which evaluation and action on each side, and that a closed gate turns a counter into collecting the process |
| ConcessionLadder.NextRateBounds | src/ai_agent/strategy.py:77-115 | bounds of every computed counter rate |
| ConcessionLadder.CounterBounds | src/ai_agent/strategy.py:180-206 | every stored counter reads back and lies within its policy bounds; none after two concessions, with the gate closed, or for an acceptable quote |
| ConcessionLadder.CounterIff | src/ai_agent/strategy.py:180-206 | a counter is stored exactly with the gate open, a quote beyond the side's limit and fewer than two concessions; with two, such a quote asks for the final best |
| ConcessionLadder.FirstBuyCounter | src/ai_agent/strategy.py:89-91 | the first stored buy counter reads back as the rounded midpoint of target and quote while that is below the maximum, else as the maximum, which the midpoint reaches exactly for quotes of at least twice the maximum less the target |
| ConcessionLadder.SecondBuyCounter | src/ai_agent/strategy.py:92-95 | the second reads back as the rounded midpoint of the recorded counter and the maximum |
| ConcessionLadder.FirstSellCounter | src/ai_agent/strategy.py:108-110 | the first stored sell counter reads back as the rounded midpoint of offer and target |
| ConcessionLadder.SecondSellCounter | src/ai_agent/strategy.py:111-114 | the second reads back as the rounded midpoint of the recorded counter and the target, but not below the minimum |
| ConcessionLadder.SecondCounterNotBelowFirst | src/ai_agent/strategy.py:92-115 | the second counter is at least the first, whatever is quoted between |
| ConcessionLadder.TurnKeepsClimbing | src/ai_agent/ai_client.py:399-415 | one turn counts at most one concession and records exactly the counter it worded |
| ConcessionLadder.LadderOverRuns | src/ai_agent/strategy.py:328-336 | over any run the count stays within two and the recorded counter readable and in bounds |
| ConcessionLadder.SecondCounterIgnoresQuotes | src/ai_agent/strategy.py:92-95 | once recorded, the first counter alone determines the second |
| ConcessionLadder.SecondConcessionIff | src/ai_agent/ai_client.py:406-412 | one uninterrupted turn counts a second concession exactly when the stored facts carry no second counter any more |
| ConcessionLadder.OneTurnConcedes | src/ai_agent/ai_client.py:399-415 | one worded, uninterrupted turn from fresh facts counts the first concession and records its counter |
| ConcessionLadder.SecondConcessionOverRunsIff | src/ai_agent/ai_client.py:399-415 | over any run from fresh facts, the next turn counts a second concession exactly when it words a countered quote with the gate open and the turn before it had dropped the stored counter |
| ConcessionLadder.FirstConcessionStalls | src/ai_agent/ai_client.py:406-414 | after the first counted concession the facts already hold the second counter |
| ConcessionLadder.UninterruptedLadderStalls | src/ai_agent/ai_client.py:399-415 | with a countered quote in every turn the count never reaches two |
| ConcessionLadder.OfferOutlivesLadder | src/ai_agent/strategy.py:200-206 | after the last concession the counter is dropped but the worded offer stays |
| ConcessionLadder.FirstSellCounterBelowMinimumIff | src/ai_agent/strategy.py:108-110 | the stored first sell counter is below the configured minimum exactly when the midpoint of offer and target rounds below it |
| ConcessionLadder.SecondSellCounterBelowOfferIff | src/ai_agent/strategy.py:111-114 | the stored second sell counter asks for less than is already offered exactly when the offer is above the minimum and above the rounded midpoint of first counter and target |
| FkRepair.Database.ArchiveRows | scripts/db/rehearse_fk_repair.py:151-165 | each orphan is archived once; entries already there win |
| FkRepair.Database.DeleteFrom | scripts/db/rehearse_fk_repair.py:169-173 | one delete statement removes exactly the given rows or nothing, as the database's reference counter over its rows in order decides |
| FkRepair.CounterBound | scripts/db/rehearse_fk_repair.py:169-173 | that counter never exceeds the references the statement leaves broken |
| FkRepair.UnreferencedIsAdmitted | scripts/db/rehearse_fk_repair.py:169-173 | so a statement that leaves no reference behind goes through |
| FkRepair.AdmitsByList | scripts/db/rehearse_fk_repair.py:118-120 | the decision is that of the one ascending order of the rows |
| FkRepair.Database.DeleteAll | scripts/db/rehearse_fk_repair.py:166-173 | the table-by-table loop deletes exactly the orphans when every statement is admitted, and stops at the first that is not |
| FkRepair.Database.Run | scripts/db/rehearse_fk_repair.py:94-206 | every combination of arguments and every state has its one ending: protected target, missing acknowledgement, unexpected count, unsupported table, a dry run reporting the number of violating rows, a refused delete, a failed final test, or a commit, which deletes exactly the violating rows, archives them and leaves no violation; anything but a commit leaves rows and archive unchanged |
| FkRepair.FinalCheckFailsIff | scripts/db/rehearse_fk_repair.py:174-178 | once all deletes went through, the final violation test fails exactly when a surviving row refers to a violating one |
| FkRepair.RepairLeavesNoViolation | scripts/db/rehearse_fk_repair.py:166-178 | when no statement leaves a reference behind, all deletes are admitted and the final test passes |
| FkRepair.SiblingHidesReference | scripts/db/rehearse_fk_repair.py:166-178 | two orphan jobs and a healthy delivery of the first: deleting the first alone is refused, deleting both is admitted, and the final test then finds the delivery |
| FkRepair.RepairConservesRows | scripts/db/rehearse_fk_repair.py:151-173 | rows before are rows left plus rows deleted, and the archive gains exactly one entry per deleted row it did not hold yet |
| FkRepair.RestorableIff | scripts/db/rehearse_fk_repair.py:151-165 | every deleted row is restorable with its full content exactly when no older entry with other content has its key; older entries stay |
| FkRepair.CleanRepairTotals | scripts/db/rehearse_fk_repair.py:151-173 | with no older entry, rows plus archive keep their total and the old table is their union |
| FkRepair.ReusedRowidIsLost | scripts/db/rehearse_fk_repair.py:152-156 | a concrete repair that deletes a row whose content is archived nowhere |
| SessionMaterial.SplitOfJoin | src/security/session_material.py:225-251 | splitting a joined envelope gives its fields back |
| SessionMaterial.DecryptOfEnvelope | src/security/session_material.py:225-268 | any service with the key reads a sealed envelope back under the same binding |
| SessionMaterial.EncryptRoundTrip | src/security/session_material.py:207-275 | in a writing mode anything but an envelope is stored under the active key and reads back in every mode |
| SessionMaterial.ReadingOfPlaintext | src/security/session_material.py:236-251 | stored plaintext reads as itself unless only ciphertext is allowed; text that claims an unknown envelope never reads |
| SessionMaterial.WritingOfPlaintext | src/security/session_material.py:207-235 | plaintext is stored as it is exactly in the disabled mode or when empty |
| SessionMaterial.MalformedEnvelopeIsRefused | src/security/session_material.py:252-257 | text with the envelope's prefix and any other number of fields neither reads nor is stored again |
| SessionMaterial.ReencryptKeepsReadingIff | src/security/session_material.py:277-291 | changing the key keeps the reading exactly when the plaintext is not itself an envelope that reads as something else |
| SessionMigration.ClassifyRows | scripts/db/migrate_telegram_session_encryption.py:143-186 | every stored row lands in exactly the list its format and readability call for |
| SessionMigration.MigrationPreservesReading | scripts/db/migrate_telegram_session_encryption.py:284-374 | for a reader with the run's own account binding every row reads the same before and after; plaintext rows are now envelopes under the active key, all others byte-identical |
| SessionMigration.ReadersSeeMigrationIff | scripts/db/migrate_telegram_session_encryption.py:49-50 | for a reader with any binding, under a cipher that rejects other associated data, a row reads the same exactly when the bindings agree or the row was not plaintext |
| SessionMaterial.OtherBindingIsRejected | src/security/session_material.py:157-169 | an envelope does not open under another account binding |
| SessionMigration.MigrationConverges | scripts/db/migrate_telegram_session_encryption.py:143-186 | no plaintext row is left, exactly the plaintext rows become openable envelopes, and a second migration changes nothing |
| SessionMigration.VerificationPassesIff | scripts/db/migrate_telegram_session_encryption.py:343-364 | the verification after the commit passes exactly when every envelope opened before the migration |
| SessionMigration.VerifyRows | scripts/db/migrate_telegram_session_encryption.py:343-364 | the verifying loop raises exactly on an envelope that does not open or reads back differently, and its counters are exact |
| SessionMigration.Accounts.SealRows | scripts/db/migrate_telegram_session_encryption.py:291-341 | for any list of ids the transaction commits exactly when all of them can be sealed, and otherwise the table is unchanged |
| SessionMigration.Accounts.Migrate | scripts/db/migrate_telegram_session_encryption.py:284-374 | the final table is the migrated one; the counts agree; the call raises after committing exactly when some envelope never opened |
| SessionMigration.RekeyPreservesReadingsIff | scripts/db/migrate_telegram_session_encryption.py:376-405 | re-keying keeps a row's reading exactly when it is not a nested envelope, and puts other envelopes under the target key |
| SessionMigration.Accounts.Reencrypt | scripts/db/migrate_telegram_session_encryption.py:376-405 | all envelopes are re-keyed, or the table is unchanged because one could not be |
| SessionMigration.NestedEnvelopeChangesReading | scripts/db/migrate_telegram_session_encryption.py:383-400 | a lawful cipher and a table whose row reads as something else after a successful re-keying |
| RateLimiter.AccountRateState.Record | src/clients/rate_limiter.py:139-163 | success lowers the error count but not below zero, errors raise it, a flood report sets the window |
| RateLimiter.ErrorsAddUp | src/clients/rate_limiter.py:139-163 | reports without a success raise the error count by one an error and two a flood wait |
| RateLimiter.SuccessesForgive | src/clients/rate_limiter.py:139-145 | each success takes one off, never below zero |
| RateLimiter.AccountRateState.Wait | src/clients/rate_limiter.py:69-121 | the wait leaves the specified state and returns the specified delay, with record calls running during both sleeps |
| RateLimiter.WaitCounts | src/clients/rate_limiter.py:88-121 | a wait counts one action, and a day after the last reset the counters start over first |
| RateLimiter.WaitLength | src/clients/rate_limiter.py:93-116 | the delay is what the stretched draw exceeds the time since the last action by, jittered if configured, and nothing when that time is enough |
| RateLimiter.AccountRateState.CalculateDelay | src/clients/rate_limiter.py:123-137 | the drawn delay stretched by the error and activity factors |
| RateLimiter.StretchTable | src/clients/rate_limiter.py:123-137 | a drawn delay grows by half for each error, up to three times, and by one percent an action beyond fifty, up to twice |
| RateLimiter.BaseDelayBounds | src/clients/rate_limiter.py:123-137 | the stretched delay lies between min_delay and six times max_delay |
| RateLimiter.ActionSpacing | src/clients/rate_limiter.py:93-119 | consecutive actions are at least 0.8 of the stretched min_delay apart under any jitter |
| RateLimiter.DelayBounds | src/clients/rate_limiter.py:93-116 | no computed wait exceeds 7.8 times max_delay, nor 6.5 times for a first action |
| RateLimiter.FirstActionWaitsIff | src/clients/rate_limiter.py:94-97 | a first action waits exactly when the factors lift the draw above max_delay |
| RateLimiter.FloodWindows | src/clients/rate_limiter.py:78-87 | a wait that starts inside a recorded window ends after it, and exactly which window is left recorded |
| RateLimiter.ReturnedWaitOmitsFlood | src/clients/rate_limiter.py:70-86 | a call takes longer than the number it returns by at least the rest of the flood window it slept out |
| RateLimiter.ReportedWindowIsErased | src/clients/rate_limiter.py:86-87 | a concrete wait that acts inside a window reported while it slept |
| RateLimiter.ActionRate | src/clients/rate_limiter.py:69-163 | over any run n further actions take at least n times the least spacing, and the error count never goes negative |
| RateLimiter.BlockedAfterWaitIff | src/clients/rate_limiter.py:165-177 | after a wait the account is blocked only for its errors, unless a window was reported while it slept |
| SessionResolve.CandidatePaths | src/clients/session_resolve.py:89-110 | the candidate paths in order, unresolvable ones left out |
| SessionResolve.Probe | src/clients/session_resolve.py:72-145 | a file exactly when some candidate is one, else what the stored text says |
| SessionResolve.OpenFirst | src/clients/session_resolve.py:204-225 | the first candidate that opens, and whether an unreadable one was seen |
| SessionResolve.Resolve | src/clients/session_resolve.py:148-252 | the report, and a session exactly when the report has no error |
| SessionResolve.ResolverReportIff | src/clients/session_resolve.py:204-252 | when no candidate opens and no string was preferred, the exact condition of each report: missing file, accepted string, rejected string, old format, nothing stored, unresolvable home |
| SessionResolve.ProbeReportIff | src/clients/session_resolve.py:122-145 | without a candidate file, the exact condition of each report of the probe, which never reports the old format |
| SessionResolve.PathsLookLikePaths | src/clients/session_resolve.py:31-46 | absolute, UNC and drive paths, file URLs and session files are taken as paths |
| SessionResolve.StringsLookLikeStrings | src/clients/session_resolve.py:31-46 | text without slashes, colons or dots is not |
| SessionResolve.FileUrlIsStripped | src/clients/session_resolve.py:24-28 | a file URL is read without its scheme, other text as it is |
| SessionResolve.ProbeAgreesIff | src/clients/session_resolve.py:112-252 | probe and default resolver report the same exactly when no candidate is a file or some candidate file opens |
| SessionResolve.ResolvedIsProbedClean | src/clients/session_resolve.py:148-252 | whatever the default resolver can use, the probe reports without error |
| SessionResolve.PreferringStringMattersIff | src/clients/session_resolve.py:168-179 | preferring the string changes the answer exactly when an accepted string competes with a readable file or an unresolvable home directory |
| ClientPool.ClientManager.ReleaseWrapper | src/clients/manager.py:114-137 | a released wrapper holds nothing, and exactly its lock and directory are gone |
| ClientPool.ClientManager.AddAccount | src/clients/manager.py:320-422 | the new pool; an account already pooled is handed back as it is |
| ClientPool.ClientManager.RemoveAccount | src/clients/manager.py:788-798 | the wrapper leaves the pool holding nothing; a failing disconnect leaves everything as it was |
| ClientPool.ClientManager.TryToConnect | src/clients/manager.py:718-741 | the answer of the first of four attempts that does not fail |
| ClientPool.ClientManager.TakeHold | src/clients/manager.py:663-702 | a lock, a temporary directory, nothing, or a refusal that takes nothing |
| ClientPool.ClientManager.SwapIn | src/clients/manager.py:749-766 | the replaced wrapper is released and the new one pooled |
| ClientPool.ClientManager.ConnectAccount | src/clients/manager.py:627-786 | the new pool for every ending, the replaced wrapper left holding nothing |
| ClientPool.ConnectEnds | src/clients/manager.py:704-786 | a client is handed out exactly when one was built and the first attempt that did not fail found it authorized; only then does the pool change its wrappers, and only this account's, with the lock or the directory its material calls for |
| ClientPool.AddEnds | src/clients/manager.py:320-422 | adding hands out the pooled wrapper, or pools a new one under its lock exactly when it is built and connects; anything else leaves the pool as it was |
| ClientPool.RemoveEnds | src/clients/manager.py:788-798 | removing gives up the wrapper with its lock and directory exactly when it disconnects; a failing disconnect is raised and changes nothing |
| ClientPool.AddThenRemove | src/clients/manager.py:788-798 | adding an account and removing it leaves any pool as it was |
| ClientPool.StepKeepsSoundIff | src/clients/manager.py:704-717 | every call keeps each lock and directory owned by exactly one pooled wrapper, and gives back what it took when it returns none, exactly unless a client constructor raises after something was claimed |
| ClientPool.LocksHaveOwners | src/clients/manager.py:320-422 | that ownership over any history of add, connect and remove |
| ClientPool.OrphanedForGood | src/clients/manager.py:704-717 | a leaked lock is never freed by any later history |
| ClientPool.OrphanBlocksTheAccount | src/clients/manager.py:354-361 | an account with a leaked lock can neither be added afresh nor connected from its own file |
| ClientPool.PooledLockRefusesReconnect | src/clients/manager.py:693-702 | an account pooled with its lock cannot be connected again from its session file |

## Left out

- Telethon, OpenAI, Flask, SQLAlchemy and SQLite themselves: their answers are parameters, tables are sequences and maps, transactions are save and restore, a foreign key is a relation.
- Concurrent writers to one database, and thread or event-loop races other than those of the probe slots and of the record calls of the rate limiter.
- Asyncio's debug mode, the delay with which a loop notices a wake-up from another thread, and thread switches inside the two statements of a slot section other than between its test and its update.
- Sends an operator approves outside the auto loop: the run theorems are about sequences of loop calls.
- Python exceptions escaping from an auto-loop call (unconvertible Telegram ids, database errors), the missing-row exit, and the fetch-cooldown exit, which the service never produces.
- The cooldown digest: any function of the last send time; the normalisation of message bodies: any function.
- Non-ASCII text: lower-casing, digits and whitespace are those of ASCII; the 4300-digit limit of integer conversion is kept.
- RateText.ParsePremiumPct: word replacement, the keyword-led phrases and the wording of size limits are parameters that need at least one letter to act.
- Floating point: rates and delays are real numbers, so the printed form of negative zero and binary rounding of decimals are not modelled.
- The text of reasons and log lines, the counters of a worker cycle, its circuit breaker and its per-account timeout (a timed-out probe is one that wrote nothing).
- The account tier, the reserved-account rule and the active-runtime registry: predicates of the account.
- TargetMerge.Session.Apply: the update time stamps of moved rows are not modelled, because every update bumps them.
- Other places that keep a target id outside the scheduler's own tables: audit logs, cohort registries and other JSON files.
- The counts a merge plan reports, the grouping of duplicates before a merge, and the planner run over all groups.
- The parts of the facts dictionary the ladder does not read (deal size, payment method, operator readiness), the wording of replies, and the free-text fact extraction.
- Databases other than SQLite: the counter a delete is decided by is SQLite's, and is not documented by it.
- Cascading deletes and triggers in the repaired database, the business aggregates and integrity pragmas reported after a commit.
- SessionMaterial.DecryptOfEnvelope: the cipher is any pair of functions where opening undoes sealing and sealed text has no colon; that altered ciphertext is rejected is not claimed, and that other associated data is rejected only where a member says so.
- Materialising session files during the migration, its expected-count arguments, its dry-run and verify commands, and its path protection.
- Resetting an account's rate state, and the small negative drift of an event loop waking early.
- Side effects of opening a session database (Telethon creates a missing file), the candidate for a path without the session suffix, and embedded NUL characters in paths.
- The reason codes with which adding or connecting an account is refused, and the classification of connection errors.
- Cancellation while connect_account swaps wrappers in the pool, the heartbeat of a held lock, and the clients that are not pooled (story publishing, health probes, QR and phone login).
- Binding verification, the execution guard, the authorization modules, the bot dialogue, the dashboards and the operator pilot scripts: straight decision chains or plumbing.
