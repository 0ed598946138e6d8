# PlayPalace: verified models of the stateful core

PlayPalace is a multiplayer game server with a desktop client. This project models, in Dafny, the parts of it whose
correctness is a matter of whole runs or of every input, and proves what they promise: the login handoff protocol,
refresh-token rotation and access sessions, the guided-table allocator for virtual bots, the rate limiters, the
client's nested options and their migrations, voice join grants, the tick-driven sound and event queues, paged menus
and dice. `dafny verify dfyconfig.toml` checks all of it.

Pure code is modelled by functions; code that changes state step by step is modelled by a class whose methods follow
the source statement by statement and are proved against a specification function, about which the results are then
proved as lemmas over arbitrary inputs and arbitrary runs.

| area | specification and results | code as it runs |
|---|---|---|
| sliding-window attempts | `CallHistories`, `SlidingWindow`, `LoginLockout` | `SlidingWindow.AttemptTable`, `LoginLockout.LoginLimiter` |
| token buckets | `TokenBuckets` | `TokenBuckets.ChatLimiter`, `TokenBuckets.VoiceRateLimiter` |
| activity windows | `ActivityWindows` | |
| guided tables | `Ordering`, `GuidedTables`, `GuidedPass`, `GuidedTheorems`, `RuleAllocation`, `GuidedFeasibility`, `StrictAllocation` | `VirtualBots` |
| login handoff | `HandoffProtocol`, `HandoffTheorems`, `RepeatedLogins`, `DisconnectCleanup`, `BotNames` | `LoginHandoff` |
| authentication | `AccessSessions`, `RefreshTokens`, `AuthRuns` | `Authentication` |
| options | `OptionPaths`, `OptionPathTheorems`, `OptionErrors`, `OptionMerge` | `OptionDicts`, `ClientOptions`, `FreshViews` |
| profile migration | `ProfileMigration`, `MigrationTheorems` | `ProfileStore` |
| voice | `VoiceProtocol`, `VoiceTheorems`, `VoiceAccess` | `VoiceRooms` |
| queues | `TimedQueues`, `TimedQueueTheorems`, `TickTimes` | `GameScheduler` |
| paged menus | `MenuPagination` | |
| dice | `DiceKeeping` | `DiceSets`, `DiceCounts` |

Assumptions, all stated as preconditions or built into the events of a model:

- A stretch of a coroutine between two suspension points runs without interruption; each such stretch is one event.
- Usernames are opaque and compared exactly. Generated tokens are fresh.
- Clocks are parameters. Where a result needs a clock that does not go backwards it says so.
- The token table has the operations of server/persistence/database.py:525-570; the account table, the table registry
  and the websocket registry are maps and sequences.
- A socket authorizes only when it has no login in progress; it may do so again, for the same name or another. The results
  of `HandoffTheorems` and `DisconnectCleanup` hold for all such runs; what holds besides when every socket authorizes once
  is in `RepeatedLogins`.

Where the code does not do what its documentation says, or what a caller would expect, the model follows the code, and a
lemma says when the expectation holds:

- A refresh request with a wrong username hint cannot burn the presented token (server/auth/auth.py:329-330), but with an
  already rotated token it revokes everything its owner holds, the live successor included:
  `RefreshTokens.WrongHintTouchesNothingIff`, and `AuthRuns.WrongHintKillsSuccessor` shows such a run.
- The next-change prediction is wrong for the window that covers the whole cycle, and only for it:
  `ActivityWindows.PredictionExactIff`.
- A strict allocation pass can raise although every rule could be satisfied: `StrictAllocation.StrictCanFailThoughFeasible`
  shows a validated configuration, and `StrictAllocation.StrictErrorsAreGenuineIff` says for which configurations a raise
  always means that no assignment exists.
- The user of a closed socket is not always taken offline. A socket that authorizes again for the name it serves hands its
  session to itself, is ignored from then on, and its user stays online when it closes:
  `RepeatedLogins.ReauthorizingLocksOut`. A socket that authorizes for another name takes only that name offline, and leaves
  the first one online: `DisconnectCleanup.ReauthorizingLeavesBehind`. Whether a cleanup is set up is decided by the
  disconnect callback alone: `DisconnectCleanup.CallbackTendsIff` says exactly when, `DisconnectCleanup.CallbackDecides` what
  follows, and `DisconnectCleanup.CleanupWaitsExactlyIf` the same from the whole run. When a login takes effect is
  `RepeatedLogins.LoginTakesEffectIff` and `RepeatedLogins.ReauthorizingTakesEffectIff`.
- Deleting an option with its empty layers does not always undo creating it: `OptionPathTheorems.CreateThenDelete` and
  `ClientOptions.CreateThenClearRestoresIff` give the exact conditions, `OptionPathTheorems.EmptyLayerIsLost` a tree.
- Keeping a die by value and unkeeping it can lose a keep: `DiceKeeping.KeepThenUnkeepIff`, `DiceKeeping.KeptDieIsLost`.
- An override set for the empty server id never shows: `ClientOptions.SetShowsIff`.
- Merging is not associative in general: `OptionMerge.AssociativeIff`.
- Migrating a server's table notifications fills in settings that then hide the defaults, and correcting a misnamed
  language can overwrite the right one: `MigrationTheorems.FillingShowsIff`, `MigrationTheorems.CzechSurvivesIff`, with
  `MigrationTheorems.FillingHidesDefault` and `MigrationTheorems.CzechIsOverwritten` as examples.
- Destroying a table does not take the people in its voice out, as removing a member does:
  `VoiceTheorems.StepCoversIff`, and `VoiceTheorems.DestroyingStrands` shows such a run.
- An event scheduled between two ticks with a delay of one runs in the same tick as one without delay:
  `TimedQueueTheorems.NextTickTakesDelaysUpToOne`.

## Model

| member | source | states |
|---|---|---|
| SlidingWindow.AttemptTable.AllowAttempt | server/core/server.py:555-578 | an attempt prunes its own key's deque only, is recorded exactly if allowed, and leaves every other key alone |
| SlidingWindow.AttemptTable.GetAttemptCount | server/core/server.py:580-592 | the count is that of the pruned deque, which is stored back or dropped when empty |
| SlidingWindow.AtMostLimitPerWindow | server/core/server.py:571-578 | over any history with a non-decreasing clock, every closed interval of one window's length holds at most `limit` allowed attempts |
| SlidingWindow.DeniedExactlyWhenFull | server/core/server.py:571-578 | an attempt is denied if and only if `limit` allowed attempts lie within the window ending now; denied attempts never extend a lockout |
| SlidingWindow.CountIsExact | server/core/server.py:580-592 | the count reported is the number of recorded attempts within the window |
| SlidingWindow.EarlierPruningIsHarmless | server/core/server.py:573-575 | pruning earlier, by whichever method, never changes what a later call sees |
| SlidingWindow.KeysDoNotInteract | server/core/server.py:572-578 | in a mixed run each key's deque is that of its own history alone |
| SlidingWindow.OffAllowsAll | server/core/server.py:570-571 | a limit of zero or less denies nothing and records nothing |
| LoginLockout.LockedOutIff | server/core/server.py:599-620 | over any checks and failures of any usernames with a non-decreasing clock, the failures counted are those recorded in the window ending now, and a username is locked out if and only if there are at least `limit` of them |
| LoginLockout.OffLocksNobodyOut | server/core/server.py:610-617 | with a limit of zero or less nobody is locked out and no failure is kept |
| LoginLockout.LoginLimiter.CheckLoginRateLimit | server/core/server.py:599-612 | the address is tried first, and then the username is refused if and only if its recorded failures in the window reach the limit |
| LoginLockout.LoginLimiter.RecordLoginFailure | server/core/server.py:614-620 | a failure goes on the history, which the table goes on representing |
| TokenBuckets.ChatLimiter.CheckChatRate | server/core/server.py:4575-4590 | one chat message against the bucket kept in two dictionaries; other users' buckets stay |
| TokenBuckets.VoiceRateLimiter.TryConsume | server/auth/voice_rate_limit.py:20-34 | one voice join against the user's bucket object, created full on first use; other users' buckets stay |
| TokenBuckets.TokensInRange | server/core/server.py:4578-4589 | before any call of a history the bucket holds between nothing and its capacity, refilled last at the previous call |
| TokenBuckets.AllowedIsBounded | server/auth/voice_rate_limit.py:26-34 | between any two calls at most capacity + rate * elapsed calls are allowed, for both limiters |
| TokenBuckets.WaitingIsRewarded | server/core/server.py:4581-4590 | a caller who waits at least 1/rate since its last call is always allowed |
| TokenBuckets.BurstIsAllowed | server/core/server.py:4578-4590 | the first `capacity` calls are allowed however fast they come |
| TokenBuckets.AllowedIff | server/core/server.py:4578-4590 | the exact law of both limiters: a call is allowed if and only if for every earlier call it stays, with the calls allowed since, within the capacity plus rate * elapsed |
| TokenBuckets.AllowedInNumbers | server/core/server.py:4572-4590 | the same with the numbers of the chat limiter and the voice limiter |
| TokenBuckets.PauseRefills | server/auth/voice_rate_limit.py:26-34 | after a pause of capacity/rate the next `capacity` calls are all allowed |
| TokenBuckets.UsersDoNotInteract | server/auth/voice_rate_limit.py:20-34 | in a mixed run each user's bucket is that of its own calls alone |
| ActivityWindows.Periodic | server/core/virtual_bots.py:436-449 | a rule's activity repeats with its cycle |
| ActivityWindows.SilentMeansConstant | server/core/virtual_bots.py:451-460 | where no change is predicted the activity never changes |
| ActivityWindows.PredictionIsExact | server/core/virtual_bots.py:451-476 | for a validated window other than the full one, a predicted count k is at least 1, activity is constant for k - 1 ticks and flips at exactly the k-th |
| ActivityWindows.PredictionExactIff | server/core/virtual_bots.py:451-476 | the prediction is right at every tick if and only if the window is not [0, cycle] |
| ActivityWindows.CycleHoldsWindow | server/core/virtual_bots.py:441-449 | any `cycle` consecutive ticks hold exactly the window's length of active ticks, wrap-around included |
| ActivityWindows.ActiveIff | server/core/virtual_bots.py:436-449 | a rule is active exactly while less than the window's length has passed since the window last began |
| ActivityWindows.AcceptedIff | server/core/virtual_bots.py:423-433 | a schedule is accepted exactly if its window, if any, lies within its cycle, and the two faults are told apart |
| GuidedTables.GuidedOrderIsSorted | server/core/virtual_bots.py:487-492 | rules are processed by priority, then name, each once |
| GuidedTables.GuidedOrderIsComplete | server/core/virtual_bots.py:487-492 | every rule is processed |
| GuidedTables.OrderIsUsable | server/core/virtual_bots.py:399-434 | validated tables give the allocator distinct rules whose groups all exist |
| GuidedTables.AcceptedRuleIff | server/core/virtual_bots.py:346-434 | a rule is accepted exactly if minimum, cap, groups, tagged bots and window are in order |
| GuidedTables.FirstFaultIsReported | server/core/virtual_bots.py:346-434 | of several faults the first in the order of the checks is reported |
| Ordering.NameLeIff | server/core/virtual_bots.py:602 | names come in the order of their characters where they first differ, prefixes first |
| GuidedTheorems.ChoiceIsDetermined | server/core/virtual_bots.py:594-612 | a rule keeps all it may keep, takes only usable bots, meets its cap exactly when enough are usable, and prefers smaller names |
| GuidedTheorems.RulesAreDisjoint | server/core/virtual_bots.py:587-612 | no bot is given to two rules |
| GuidedTheorems.GivenBotsAreEligible | server/core/virtual_bots.py:589-594 | only instantiated, tagged bots are given out, and inactive rules get none |
| GuidedTheorems.TargetIsHolder | server/core/virtual_bots.py:612-614 | a bot given to a rule has that rule as its target |
| GuidedTheorems.TargetHasHolder | server/core/virtual_bots.py:584-585 | a bot with a target was given to the rule of that name |
| GuidedTheorems.HoldingsAgree | server/core/virtual_bots.py:612-614 | each rule is recorded as holding exactly what its turn gave it |
| GuidedTheorems.SizeIsExact | server/core/virtual_bots.py:594-612 | an active rule that came within its cap, as every rule does after any run of ticks, gets exactly the smaller of its cap and the eligible bots earlier rules left |
| GuidedTheorems.NoStarvation | server/core/virtual_bots.py:589-616 | a rule below its minimum never coexists with a later rule holding a bot it could have used |
| GuidedTheorems.Sticky | server/core/virtual_bots.py:596-601 | a bot leaves an active rule that may still use it only because an earlier rule took it |
| GuidedTheorems.StrictPassRaisesIff | server/core/virtual_bots.py:616-621 | a strict pass raises if and only if some rule is short |
| GuidedTheorems.RaisedPassLeaves | server/core/virtual_bots.py:616-629 | a strict pass that raises names the first short rule, leaves later holdings and all other flags as they were, and has cleared the flags before |
| GuidedTheorems.TargetsArePass | server/core/virtual_bots.py:584-614 | after a pass, returned or raised, a bot's target is the rule it was given to among those processed, and there is none otherwise |
| GuidedTheorems.PassIsIdempotent | server/core/virtual_bots.py:584-614 | rerunning a pass on its own outcome gives every rule the same bots |
| GuidedTheorems.RerunChangesNothing | server/core/virtual_bots.py:582-629 | rerunning a normally returning pass changes no holding, no target and no warning flag, and raises nothing |
| GuidedTheorems.CapsHoldAcrossTicks | server/core/virtual_bots.py:602-612 | from empty assignments the caps hold after every tick, whatever bots come and go, also when strict passes raise half way |
| GuidedTheorems.SizesAcrossTicks | server/core/virtual_bots.py:594-612 | after any run of ticks from empty assignments, each active rule of the next pass gets exactly the smaller of its cap and the eligible bots earlier rules left |
| RuleAllocation.TaggedIff | server/core/virtual_bots.py:387-397 | a bot is eligible for a rule if and only if it is in one of the groups the rule lists |
| RuleAllocation.RuleSizeIsExact | server/core/virtual_bots.py:582-614 | from the configuration: an active rule is given as many bots as its cap and the instantiated bots of its groups left by earlier rules allow, an inactive one none |
| RuleAllocation.AnyGroupServes | server/core/virtual_bots.py:589-612 | a bot left for an active rule by any of its groups is given to it unless the cap is met |
| RuleAllocation.NoGroupStarves | server/core/virtual_bots.py:589-616 | no rule after one below its minimum is given a bot of any group of that rule |
| GuidedFeasibility.ErrorMeansInfeasible | server/core/virtual_bots.py:582-629 | where the active rules fit each other and start within their caps, a strict pass raises if and only if no assignment whatever satisfies them all |
| GuidedFeasibility.MisfitRaises | server/core/virtual_bots.py:594-621 | for any two rules that do not fit there are bots, and holdings the earlier can take in one tick, for which the pass raises although an assignment satisfies both |
| StrictAllocation.FittingErrorsAreGenuine | server/core/virtual_bots.py:616-621 | over validated tables whose rules fit, at any tick, with any bots and any holdings within the caps, a strict pass raises if and only if no assignment exists |
| StrictAllocation.StrictErrorsAreGenuineIff | server/core/virtual_bots.py:582-629 | every raise means that no assignment exists, under all schedules and all bots that come and go from the first tick of a new server on, if and only if each rule fits every later one: a condition on groups, minimums and caps |
| StrictAllocation.StrictCanFailThoughFeasible | server/core/virtual_bots.py:582-629 | a validated configuration whose first tick raises although an assignment satisfying every rule exists |
| VirtualBots.VirtualBotManager.TopUp | server/core/virtual_bots.py:601-610 | the loop over the sorted eligible bots picks exactly the bots the specification determines |
| VirtualBots.VirtualBotManager.TakeTurns | server/core/virtual_bots.py:589-629 | the loop over the rules does what the pass specification says, an error included |
| VirtualBots.VirtualBotManager.ResolveGuidedAssignments | server/core/virtual_bots.py:582-629 | the whole method leaves holdings, targets and flags of the specified pass over the validated tables |
| VirtualBots.NoPriorityInversion | server/core/virtual_bots.py:487-492 | with validated tables, no rule of a later priority holds a bot that a short rule of an earlier one could use |
| HandoffTheorems.RunKeepsInv | server/core/server.py:952-979 | in every interleaving of logins, repeated logins, closes, timers and bots, users, sockets, handoffs in progress and timers stay consistent |
| HandoffTheorems.AtMostOneLiveSession | server/core/server.py:1158-1177 | in every reachable state a username has at most one open socket whose packets are acted on, and its user is bound to it |
| HandoffTheorems.OnlyOwnClosedSocketEvicts | server/core/server.py:1058-1089 | a username loses its user only to the cleanup of the closed socket the user is still bound to: no stale disconnect evicts a re-attached user |
| HandoffTheorems.LiveTimerIsCurrent | server/core/server.py:1048-1063 | a live cleanup always finds its user still bound to the socket it waited for |
| HandoffTheorems.AttachedUserStays | server/core/server.py:1032-1063 | a user attached to an open socket stays attached until that socket closes or a login takes the session of that socket |
| HandoffTheorems.CallbackSetsTimer | server/core/server.py:1027-1046 | the disconnect callback of an unreplaced, bound socket always sets up its cleanup |
| RepeatedLogins.RunReplacesIff | server/core/server.py:952-958 | after any run a socket is marked replaced if and only if a login took the session it served |
| RepeatedLogins.AcceptedUntilHandedOff | server/core/server.py:1158-1177 | a socket whose packets are acted on stays so, over any run, if and only if no login takes its session |
| RepeatedLogins.LoginTakesEffectIff | server/core/server.py:1339-1377 | after any run, a login that ends binds its name to its socket, and its packets are acted on if and only if no login, itself included, ever took a session from that socket; those of the old socket no longer are |
| RepeatedLogins.ReauthorizingTakesEffectIff | server/core/server.py:952-979 | a socket in use that authorizes again gets the name, and is acted on afterwards if and only if the name was not bound to it already |
| RepeatedLogins.ReauthorizingLocksOut | server/core/server.py:952-1034 | a run from the empty server after which a name is online on a closed, ignored socket for which no cleanup waits |
| RepeatedLogins.RunKeepsSingle | server/core/server.py:952-979 | where every socket authorizes once, a bound socket carries its name, a login in progress has no session yet, only served sockets are replaced, and cleanups wait for unreplaced ones |
| RepeatedLogins.LoginTakesEffect | server/core/server.py:1339-1377 | where every socket authorizes once, every login that ends takes effect |
| RepeatedLogins.CleanupWaitsIff | server/core/server.py:1027-1046 | where every socket authorizes once, a name left on a socket reported closed has its cleanup waiting if and only if that socket was not replaced |
| DisconnectCleanup.CallbackTendsIff | server/core/server.py:1027-1046 | the disconnect callback of the socket a name is bound to sets up its cleanup if and only if the socket is not marked replaced and carries that name |
| DisconnectCleanup.CallbackDecides | server/core/server.py:1027-1063 | until a login takes the name: if the callback claimed it, its cleanup waits until it fires and then the name is offline; if not, the name stays online and no cleanup for it ever waits |
| DisconnectCleanup.CleanupWaitsExactlyIf | server/core/server.py:1008-1063 | after any run whatever, a cleanup waits for a name and a socket if and only if the callback of the socket claimed the name and since then no login took its lock and it has not fired |
| DisconnectCleanup.ReauthorizingLeavesBehind | server/core/server.py:1027-1046 | a run from the empty server after which a name is online on a closed, unreplaced socket, and only the other name of that socket has a cleanup waiting |
| BotNames.BotHoldsIff | server/core/server.py:1339-1345 | a bot holds a name exactly until it goes offline or a login takes the name while the manager knows the bot, whatever timers, closes and other logins do |
| BotNames.LoginMeetsBot | server/core/server.py:1339-1377 | a login for a name a bot holds replaces the bot at once if the manager knows it, and fails otherwise |
| BotNames.StaleNeverTouches | server/core/server.py:1032-1063 | in any state, reachable or not, neither the callback nor the cleanup of one socket touches a name that a bot or a user on another socket holds |
| LoginHandoff.LoginServer.AttachOrUpdateUserLocked | server/core/server.py:1323-1377 | from taking the lock to the first await: one step of the protocol, keeping its invariant |
| LoginHandoff.LoginServer.FinishHandoff | server/core/server.py:971-979 | after the old socket's close: the new socket takes the user over, one step of the protocol |
| LoginHandoff.LoginServer.OnClientDisconnect | server/core/server.py:1008-1046 | the disconnect callback is one step of the protocol |
| LoginHandoff.LoginServer.DelayedDisconnectCleanup | server/core/server.py:1048-1089 | the cleanup after the grace period is one step of the protocol |
| AccessSessions.CreatedMembers | server/auth/auth.py:177-196 | creating a session drops the expired entries and the evicted ones of its owner, and nothing else |
| AccessSessions.EvictsSoonestToExpire | server/auth/auth.py:186-194 | every evicted session expires no later than every session kept for its owner, and nothing is evicted below ten |
| AccessSessions.CreatedIsBounded | server/auth/auth.py:188-195 | after creation the owner has at most ten sessions, one more than before unless ten were there |
| AccessSessions.AtMostTen | server/auth/auth.py:177-196 | after a session is created its owner has exactly one more, or ten |
| AccessSessions.ValidatesIff | server/auth/auth.py:198-207 | a token validates exactly to the owner of an unexpired session with it, and only its own expired session is dropped |
| RefreshTokens.PresentKeepsChains | server/auth/auth.py:279-340 | presenting a token, whatever comes of it, keeps the links disjoint acyclic paths within one user and takes nothing back |
| RefreshTokens.RotationMovesOneTip | server/auth/auth.py:334-337 | rotation moves the tip of the presented token's chain and of no other |
| RefreshTokens.PresentKeepsFamilies | server/auth/auth.py:279-340 | presenting a token never merges or splits login families |
| RefreshTokens.AtMostOneLive | server/auth/auth.py:334-337 | a family has at most one live token, its tip |
| RefreshTokens.GrantGoesToOwner | server/auth/auth.py:299-332 | credentials go to the token's owner, who exists, is not banned and matches the hint |
| RefreshTokens.GrantIsLiveTip | server/auth/auth.py:239-277 | every success, rotation or grace replay, hands out exactly the live tip of the presented token's family |
| RefreshTokens.GrantedIff | server/auth/auth.py:239-340 | credentials are given if and only if the token is known, its owner exists, is not banned and is the one expected, and it is fresh, or was rotated at most 30 seconds ago to a fresh successor |
| RefreshTokens.GrantIs | server/auth/auth.py:262-340 | a fresh token is answered with the minted one, a rotated one with its successor and that expiry |
| RefreshTokens.RefusalTouches | server/auth/auth.py:293-332 | what a refusal does to every record: a revoked token costs all of its owner's, an expired one is revoked, nothing else changes |
| RefreshTokens.ReplayIsIdempotent | server/auth/auth.py:305-314 | within the grace window a rotated token is answered from the same successor without touching the store |
| RefreshTokens.OldTokenTriggersTheftResponse | server/auth/auth.py:262-270 | a token two or more rotations old is refused and kills every token of its owner |
| RefreshTokens.RevokeUserKills | server/persistence/database.py:558-566 | revoking a user leaves every token ever issued to it revoked |
| RefreshTokens.DeadYieldsNothing | server/auth/auth.py:309-321 | a token whose whole chain is revoked yields nothing, whoever presents it and when |
| RefreshTokens.WrongHintTouchesNothingIff | server/auth/auth.py:329-332 | a wrong hint never yields anything, and leaves the store alone exactly under the stated conditions |
| AuthRuns.RunKeepsInv | server/auth/auth.py:170-225 | on every run chains stay chains, access tokens stay unique and nobody has more than ten sessions |
| AuthRuns.RunAdvances | server/auth/auth.py:293-340 | no run takes back a record, an owner, an expiry, a revocation or a replacement |
| AuthRuns.RotatedAtMostOnce | server/auth/auth.py:334-337 | on every run each token is rotated at most once, and its successor stays its successor |
| AuthRuns.RefreshHandsOutLiveTip | server/auth/auth.py:279-340 | after any run, a successful refresh hands out the one live token of the family and opens a session for its owner |
| AuthRuns.FamiliesAreForever | server/auth/auth.py:227-340 | login families never merge or split on any run |
| AuthRuns.ResetIsPermanent | server/auth/auth.py:158-164 | after a completed reset no refresh token and no access session issued to the user before ever works again, on any later run |
| AuthRuns.TheftResponseIsPermanent | server/auth/auth.py:309-321 | after a theft response no refresh token its owner held then ever works again, on any later run |
| AuthRuns.OthersCannotDisturb | server/auth/auth.py:170-225 | an unexpired session outlives everything other users do, on any run |
| AuthRuns.LapsedForever | server/auth/auth.py:322-324 | a token not rotated before it expired never yields anything from then on, on any run |
| AuthRuns.NewSessionWorks | server/auth/auth.py:177-207 | a new session validates to its owner exactly until it expires, on every run that leaves it alone |
| AuthRuns.NewRefreshWorks | server/auth/auth.py:227-237 | a new refresh token of an owner in good standing earns credentials exactly until it expires |
| AuthRuns.EndingIsPermanent | server/auth/auth.py:209-225 | an ended session never validates again, on any later run |
| AuthRuns.RevocationIsPermanent | server/persistence/database.py:558-566 | revoked refresh tokens never yield again, on any later run |
| AuthRuns.WrongHintKillsSuccessor | server/auth/auth.py:305-321 | a run from an empty table: a rotation, then the old token again with another user's name, and the live successor is revoked |
| Authentication.AuthManager.PruneExpiredSessions | server/auth/auth.py:170-175 | deleting the expired tokens one by one leaves the unexpired entries in their order |
| Authentication.AuthManager.CreateSession | server/auth/auth.py:177-196 | the method is the session step of the run model and keeps its invariant |
| Authentication.AuthManager.ValidateSession | server/auth/auth.py:198-207 | an unknown or expired token validates to nothing, and an expired one is dropped |
| Authentication.AuthManager.InvalidateUserSessions | server/auth/auth.py:217-225 | all of a user's sessions go and everybody else's stay in order |
| Authentication.AuthManager.ReplayRotationWithinGrace | server/auth/auth.py:239-277 | a replay opens a session and returns the unchanged successor exactly when the specification allows one |
| Authentication.AuthManager.RefreshSession | server/auth/auth.py:279-340 | the method is the refresh step of the run model, with exactly the credentials it grants |
| Authentication.AuthManager.FinishReset | server/auth/auth.py:160-164 | what a reset does after hashing: the stored hash of an account that is still there, and the reset step of the run model for sessions and tokens |
| OptionPaths.ParseJoin | clients/desktop/config_manager.py:22-27 | a path text built from layer names reads back as those names, with or without a slash at either end |
| OptionPaths.FailedReadCreatesNothing | clients/desktop/config_manager.py:28-46 | a failing read in create mode has created nothing |
| OptionPathTheorems.SetThenGet | clients/desktop/config_manager.py:49-70 | a set value is what the path leads to, and beyond it the value's own layers |
| OptionPathTheorems.SetLeavesOthers | clients/desktop/config_manager.py:49-70 | setting leaves every path that is neither prefix nor extension as it was, errors included |
| OptionPathTheorems.DeletedIsMissing | clients/desktop/config_manager.py:90-94 | a deleted key and everything beyond it is missing |
| OptionPathTheorems.DeleteLeavesOthers | clients/desktop/config_manager.py:73-108 | deleting, pruning or not, leaves every path that is neither prefix nor extension as it was, errors included |
| OptionPathTheorems.DeleteLeavesNoEmptyLayer | clients/desktop/config_manager.py:96-107 | after a pruning deletion no layer on a path without empty names is left empty |
| OptionPathTheorems.CreateSucceedsIff | clients/desktop/config_manager.py:61-70 | setting in create mode goes through if and only if nothing on the way is anything but a dictionary |
| OptionPathTheorems.PlainSetSucceedsIff | clients/desktop/config_manager.py:66-69 | setting without creating succeeds if and only if the path leads to a dictionary that has the key |
| OptionPathTheorems.CreateThenBare | clients/desktop/config_manager.py:95-96 | without pruning, the layers created for a value stay |
| OptionPathTheorems.CreateThenDelete | clients/desktop/config_manager.py:97-107 | creating at an absent path and deleting with pruning restores the tree if and only if no layer already there is empty and no created layer is followed by an empty name |
| OptionPathTheorems.EmptyLayerIsLost | clients/desktop/config_manager.py:97-107 | a tree with an empty layer, which creating and deleting an option in it does not restore |
| OptionPathTheorems.RestorableIff | clients/desktop/config_manager.py:97-107 | without empty layer names the condition is that no pre-existing layer on the path is empty |
| OptionErrors.ReadFailsIff | clients/desktop/config_manager.py:28-46 | a read fails exactly at the first layer that what was reached refuses, and with which error |
| OptionErrors.SetFailsIff | clients/desktop/config_manager.py:49-70 | exactly when setting fails with which error, in both modes |
| OptionErrors.DeleteAnswers | clients/desktop/config_manager.py:73-95 | exactly when deleting fails with which error or answers that there was nothing, and that the tree is then unchanged |
| OptionErrors.TextNamesIff | clients/desktop/config_manager.py:22-27 | the only text that names no path is a single slash |
| OptionDicts.OptionDict.GetItem | clients/desktop/config_manager.py:18-46 | the walk returns what the path leads to or the error raised, creates exactly the missing layers, and nothing when it fails |
| OptionDicts.OptionDict.SetItem | clients/desktop/config_manager.py:49-70 | sets as specified or raises the specified error and changes nothing |
| OptionDicts.OptionDict.DeleteItem | clients/desktop/config_manager.py:73-108 | deletes as specified, with the specified answer or error |
| OptionDicts.OptionDict.PruneLayers | clients/desktop/config_manager.py:97-107 | the loop from the deepest layer up prunes exactly what the recursive specification prunes |
| OptionMerge.DeepMerge | clients/desktop/config_manager.py:331-358 | the loop over the override's keys, in any order, merges as specified |
| OptionMerge.CopyIsSame | clients/desktop/config_manager.py:776-783 | a copy has the value of what was copied |
| OptionMerge.MergeIsPointwise | clients/desktop/config_manager.py:331-358 | at every path: the override's leaf, its dictionary merged over the default's, the default where the override is silent, nothing where an override leaf cuts the path |
| OptionMerge.MergeIsIdempotent | clients/desktop/config_manager.py:331-358 | merging the same override again changes nothing |
| OptionMerge.BaseWinsIsExchanged | clients/desktop/config_manager.py:349-356 | base-wins of (a, b) is override-wins of (b, a) |
| OptionMerge.AssociativeIff | clients/desktop/config_manager.py:331-358 | layering three dictionaries is associative if and only if nowhere a leaf lies between two dictionaries of which the last does not cover the first |
| OptionMerge.HiddenIffCovered | clients/desktop/config_manager.py:331-358 | an override hides the base completely if and only if it has every key of the base, wherever both are dictionaries |
| ClientOptions.ViewIsPointwise | clients/desktop/config_manager.py:707-724 | a server's view at a path, from the defaults and the overrides there |
| ClientOptions.SetShowsIff | clients/desktop/config_manager.py:726-753 | a set override shows in the view if and only if the server id is not empty or the default was the same |
| ClientOptions.ClearRestoresDefault | clients/desktop/config_manager.py:755-774 | a cleared override gives way to the default, or to nothing where there is none |
| ClientOptions.SetLeavesOtherOptions | clients/desktop/config_manager.py:726-753 | setting an override changes no other option of the view |
| ClientOptions.ClearLeavesOtherOptions | clients/desktop/config_manager.py:755-774 | clearing an override, pruning or not, changes no other option of the view |
| ClientOptions.FailedSetIsInvisible | clients/desktop/config_manager.py:746-753 | a failing set changes no view, although it may leave an empty set of overrides |
| ClientOptions.CreateThenClear | clients/desktop/config_manager.py:726-774 | creating an override and clearing it restores the server's overrides exactly when the tree is restorable |
| ClientOptions.CreateThenClearRestoresIff | clients/desktop/config_manager.py:726-774 | creating an override and clearing it restores the whole profile if and only if the server had an entry and its tree is restorable |
| ClientOptions.SetDefaultShows | clients/desktop/config_manager.py:726-753 | a set default shows, leaves other defaults and all overrides alone, and a failing set changes nothing |
| ClientOptions.SetConcernsServer | clients/desktop/config_manager.py:726-753 | setting for a server touches that server's overrides only, and leaves an empty set of them if it fails and there were none |
| ClientOptions.ClearConcernsServer | clients/desktop/config_manager.py:755-774 | clearing touches that server's overrides only and answers whether there was something to clear |
| ClientOptions.ConfigManager.GetClientOptions | clients/desktop/config_manager.py:707-724 | returns the specified view |
| ClientOptions.ConfigManager.SetClientOption | clients/desktop/config_manager.py:726-753 | changes defaults or overrides as specified, or reports the error |
| ClientOptions.ConfigManager.ClearServerOverride | clients/desktop/config_manager.py:755-774 | clears as specified, and only that server's overrides |
| FreshViews.DeepCopy | clients/desktop/config_manager.py:776-783 | a copy shows the same tree and consists of new objects only |
| FreshViews.DeepMerge | clients/desktop/config_manager.py:331-358 | the merge on objects shows the merged tree and consists of new objects only |
| FreshViews.GetClientOptions | clients/desktop/config_manager.py:707-724 | the view shares no object with the stored profile |
| MigrationTheorems.MigrateIs | clients/desktop/config_manager.py:198-228 | migration raises exactly for an unsound profile, and otherwise migrates every tree of options on its own |
| MigrationTheorems.MigrateIsIdempotent | clients/desktop/config_manager.py:198-228 | after one pass each of the six migrations reports no change on the result, and so does another pass |
| MigrationTheorems.MigrateReportsExactly | clients/desktop/config_manager.py:198-228 | migration asks for the profile to be saved if and only if it changed it |
| MigrationTheorems.CarriesIff | clients/desktop/config_manager.py:235-237 | overrides are carried over from an old server exactly if it has some that are not nothing |
| MigrationTheorems.RaisesIff | clients/desktop/config_manager.py:235-236 | exactly which old server entries make the migration raise |
| MigrationTheorems.OtherSettingsKept | clients/desktop/config_manager.py:247-329 | every setting that is not renamed or filled in is what it was |
| MigrationTheorems.LanguageRenamed | clients/desktop/config_manager.py:270-284 | the misnamed subscription and chat language move to the right name whole |
| MigrationTheorems.TablesMoved | clients/desktop/config_manager.py:286-329 | table notifications move into the local table, whose other settings are filled in only where missing |
| MigrationTheorems.CzechSurvivesIff | clients/desktop/config_manager.py:274-277 | a setting already under the right name survives if and only if none under the wrong name differs from it |
| MigrationTheorems.CzechIsOverwritten | clients/desktop/config_manager.py:270-284 | options in which the migration overwrites the right language setting |
| MigrationTheorems.FillingShowsIff | clients/desktop/config_manager.py:316-329 | filling in a server's local table leaves its view alone if and only if the server had the setting or the default equals the value filled in |
| MigrationTheorems.FillingHidesDefault | clients/desktop/config_manager.py:316-329 | defaults and a server whose filled-in setting hides the default from the view |
| MigrationTheorems.ProfileKept | clients/desktop/config_manager.py:230-245 | of a whole profile, old server overrides are carried over, every tree is migrated, and every other key stays |
| ProfileStore.LoadedIsSettled | clients/desktop/config_manager.py:157-169 | whatever was read, what the client starts with needs no further migration |
| ProfileStore.FixLanguageSubs | clients/desktop/config_manager.py:270-284 | corrects one social section and reports a change exactly if it made one |
| ProfileStore.BuildLocalTable | clients/desktop/config_manager.py:316-329 | the loop over the old local table builds the specified one |
| ProfileStore.MoveTables | clients/desktop/config_manager.py:286-314 | moves one tree's table notifications, or fails on a local table that is not a dictionary |
| ProfileStore.Migrator.MigrateServerOptions | clients/desktop/config_manager.py:230-239 | carries the old servers' overrides over, or fails as the specification says |
| ProfileStore.Migrator.FixServerLanguages | clients/desktop/config_manager.py:258-268 | corrects every server's languages and reports a change exactly if it made one |
| ProfileStore.Migrator.MoveServerTables | clients/desktop/config_manager.py:300-314 | moves every server's table notifications and reports a change exactly if it made one |
| ProfileStore.Migrator.MigrateProfiles | clients/desktop/config_manager.py:198-228 | the six in order, with the report whether anything is to be saved |
| VoiceTheorems.GrantIsEarned | server/core/voice_mixin.py:71-92 | a held grant was issued by an earlier join for its table, and nothing that ends a grant happened since |
| VoiceTheorems.BeginsIff | server/core/voice_mixin.py:178-190 | presence begins if and only if a connection report uses up a grant and the user is not present there already |
| VoiceTheorems.PresenceNeedsGrant | server/core/voice_mixin.py:162-192 | presence begins only by using up a grant for the same user and table at most 120 seconds old, with no join, leave, mute or removal in between, while the user is an unmuted member |
| VoiceTheorems.GrantsAreSingleUse | server/core/voice_mixin.py:81-92 | between two beginnings of a user's presence lies the issue of the second one's grant |
| VoiceTheorems.StepCoversIff | server/core/voice_mixin.py:255-269 | one event keeps "presence without membership has a clear task pending" if and only if it does not destroy a table under somebody in its voice |
| VoiceTheorems.PresenceIsCovered | server/core/voice_mixin.py:255-269 | on runs without such a destruction, presence without membership implies a pending clear task |
| VoiceAccess.JoinGrantsIff | server/core/voice_mixin.py:96-128 | a join leaves an online user with a grant for a table, good for 120 seconds, if and only if the limiter allowed it, the service is ready, no mute stands, and the packet is about that table where the user is a member; otherwise with none |
| VoiceAccess.ConnectingIff | server/core/voice_mixin.py:162-192 | a connection report puts a user in voice, loses the grant or changes nothing, exactly under the stated conditions on tables, mutes and grants |
| VoiceAccess.PresenceEndsIff | server/core/voice_mixin.py:130-206 | presence ends exactly by a leave or loss about it, a mute, or a pending task carried out |
| VoiceAccess.MuteHolds | server/core/administration.py:908-918 | from a mute until it is changed, before its expiry no join of the user is granted and no report puts them in voice, and at its expiry it is over |
| VoiceAccess.MembersIff | server/core/tables/table.py:73-101 | who is a member of which table after each event |
| VoiceAccess.TablesStayPeopled | server/core/tables/table.py:89-101 | no run leaves a table without members |
| VoiceAccess.TasksChangeOnly | server/core/voice_mixin.py:255-269 | a clear task is set up exactly when somebody in voice is removed from a table there is |
| VoiceTheorems.DestroyingStrands | server/core/voice_mixin.py:255-269 | a run from nothing at all that leaves somebody in the voice of a destroyed table with no task to take them out |
| VoiceTheorems.MutedAreLeaving | server/core/administration.py:908-918 | a muted user still in voice always has the rest of the mute, which ends the presence, pending |
| VoiceRooms.VoiceServer.ConsumeJoinAuthorization | server/core/voice_mixin.py:81-92 | consumes exactly an unexpired grant for the table; an expired one goes, a different one stays |
| VoiceRooms.VoiceServer.HandleVoiceJoin | server/core/voice_mixin.py:96-128 | the join handler is the join step of the protocol |
| VoiceRooms.VoiceServer.RegisterVoicePresence | server/core/voice_mixin.py:162-192 | a connection report is the corresponding step of the protocol |
| VoiceRooms.VoiceServer.HandleVoiceLeave | server/core/voice_mixin.py:148-158 | the leave handler is the leave step of the protocol |
| VoiceRooms.VoiceServer.DisconnectUserFromVoice | server/core/voice_mixin.py:194-206 | the grant goes at once, the presence at once or after the user's client was told |
| VoiceRooms.VoiceServer.MuteUser | server/core/administration.py:908-918 | muting is the mute step of the protocol |
| VoiceRooms.VoiceServer.RemoveMember | server/core/tables/table.py:89-101 | removing a member, its voice hook and the end of an empty table are one step of the protocol |
| VoiceRooms.VoiceServer.OnTableMemberRemoved | server/core/voice_mixin.py:255-269 | the hook drops the grant and schedules a clear task exactly for somebody present |
| TimedQueueTheorems.RunKeepsValid | server/game_utils/game_sound_mixin.py:160-191 | on every run each item is in exactly one place and is delivered at most once, in the first later pass whose counter reached its target |
| TimedQueueTheorems.DeliveredExactlyOnce | server/game_utils/game_sound_mixin.py:100-191 | from an empty queue, over any run, an item not cleared away is delivered in exactly one pass, the first later one whose counter reached its target; if there was none it still waits |
| TimedQueueTheorems.PassDeliversDue | server/game_utils/game_sound_mixin.py:171-191 | a waiting item is delivered in the next pass if and only if its target has been reached, and otherwise still waits |
| TimedQueueTheorems.HandlersScheduleForLater | server/game_utils/game_sound_mixin.py:180-191 | what a handler schedules never runs in the same pass |
| TimedQueueTheorems.PassSchedulesAsked | server/game_utils/game_sound_mixin.py:171-191 | a pass schedules exactly what its handler asks for with each delivery, in order, at its tick |
| TimedQueueTheorems.EqualTargetsInOrder | server/game_utils/game_sound_mixin.py:185-191 | items with equal targets are delivered in scheduling order |
| TimedQueueTheorems.ClearingKeepsValid | server/game_utils/game_sound_mixin.py:136-138 | clearing leaves nothing waiting and the rest of the history as it was; what was scheduled is then dropped if and only if it was not delivered |
| TimedQueueTheorems.ClearedIsNeverDelivered | server/game_utils/game_sound_mixin.py:136-138 | what was cleared away is never delivered on any later run |
| TimedQueueTheorems.NextTickTakesDelaysUpToOne | server/game_utils/game_sound_mixin.py:160-169 | an event scheduled between two ticks is delivered in the next one if and only if its delay is at most one |
| TickTimes.DeliveredAfterDelay | server/game_utils/game_sound_mixin.py:100-191 | over consecutive ticks, what is scheduled between two of them and not cleared is delivered in exactly one pass, that of its delay, if the game ticks that long |
| TickTimes.SoundsPlayOnTime | server/game_utils/game_sound_mixin.py:100-154 | a sound with a delay of d >= 0 ticks is played in exactly the (d + 1)-th tick from now |
| TickTimes.EventsComeOnTime | server/game_utils/game_sound_mixin.py:160-191 | an event with a delay of d is handled in exactly the max(1, d)-th tick from now |
| GameScheduler.Scheduler.ScheduleSound | server/game_utils/game_sound_mixin.py:100-118 | appends the sound with its target tick |
| GameScheduler.Scheduler.ProcessScheduledSounds | server/game_utils/game_sound_mixin.py:140-154 | the loop plays exactly the due sounds in order, keeps the rest, and moves the counter |
| GameScheduler.Scheduler.ProcessScheduledEvents | server/game_utils/game_sound_mixin.py:171-191 | the swap and the loop are the specified pass, for any game that may schedule events and sounds while it handles one |
| GameScheduler.Scheduler.OnTick | server/game_utils/game_sound_mixin.py:140-191 | one tick passes the sounds at the counter and the events at the risen one, and keeps both queues valid |
| GameScheduler.GamePassSchedules | server/game_utils/game_sound_mixin.py:100-191 | the events and sounds a game asks for while it handles the due events are exactly those scheduled |
| MenuPagination.PageShowsItsRows | server/core/menu_pagination.py:111-152 | a page shows the rows from its start index to its end index, full unless it is the last |
| MenuPagination.WalkShowsAll | server/core/menu_pagination.py:56-84 | from First by Next: all pages once, in order, and their rows together are exactly the list |
| MenuPagination.OnOnePage | server/core/menu_pagination.py:136-152 | every row is on exactly one page |
| MenuPagination.ControlsShownIff | server/core/menu_pagination.py:171-203 | a navigation control is shown if and only if it leads to another page |
| MenuPagination.NextAndPrevious | server/core/menu_pagination.py:75-80 | Next and Previous undo each other |
| MenuPagination.LastIsLast | server/core/menu_pagination.py:56-84 | Last leads to the page that ends the list |
| MenuPagination.LastShowsEnd | server/core/menu_pagination.py:80-81 | of a stale menu, Last shows the remembered page count cut to the pages there are now |
| MenuPagination.PageIsAsked | server/core/menu_pagination.py:47-53 | the page asked for is shown, brought within the pages there are |
| MenuPagination.SizeIsAsked | server/core/menu_pagination.py:36-38 | a page has the size asked for, brought within 1 and 100 |
| MenuPagination.ControlsInOrder | server/core/menu_pagination.py:171-203 | controls come in their order, each once, refresh exactly if asked for and there are rows |
| MenuPagination.HandledIff | server/core/server.py:2435-2460 | which selections are handled, and that only the page remembered changes |
| MenuPagination.StalePagesAreSafe | server/core/server.py:2435-2460 | with any remembered page and page count and any new list, the page shown after any selection is in range and has rows unless the list has none |
| MenuPagination.RefreshStays | server/core/server.py:2449-2459 | a refresh against the same list shows the same page |
| DiceKeeping.StepHoldsLocked | server/game_utils/dice.py:80-158 | every operation keeps locked dice kept, locked and showing what they show |
| DiceKeeping.LockedStays | server/game_utils/dice.py:74-158 | from reset, over any rolls, keeps, unkeeps and toggles, locked dice are kept and change neither value nor lock until the next reset |
| DiceKeeping.KeepsOne | server/game_utils/dice.py:112-158 | keeping, unkeeping and toggling concern one die, and only if it is not locked |
| DiceKeeping.ByValueCounts | server/game_utils/dice_game_mixin.py:494-538 | keeping or unkeeping by value changes the kept values by that one value, if a die can be found |
| DiceKeeping.KeepThenUnkeepIff | server/game_utils/dice_game_mixin.py:494-538 | keeping a value and unkeeping it restores the kept values if and only if there was a die to keep or none to unkeep |
| DiceKeeping.KeptDieIsLost | server/game_utils/dice_game_mixin.py:494-538 | dice whose only keep is lost by keeping its value and unkeeping it |
| DiceSets.DiceSet.Roll | server/game_utils/dice.py:80-110 | the loop rolls as specified, given the faces |
| DiceSets.DiceSet.ToggleKeep | server/game_utils/dice.py:144-158 | toggles an unlocked die and answers whether it is kept now |
| DiceSets.DiceSet.FindValueDieIndex | server/game_utils/dice_game_mixin.py:243-259 | the first unlocked die of the value, kept or not as wanted |
| DiceSets.DiceSet.KeepByValue | server/game_utils/dice_game_mixin.py:494-516 | keeps exactly the die the enabled check found, and no other |
| DiceSets.DiceSet.UnkeepByValue | server/game_utils/dice_game_mixin.py:518-538 | unkeeps exactly the die the enabled check found, and no other |
| DiceCounts.CountDice | server/game_utils/dice.py:253-261 | every face has an entry, and each value's count is how often it is shown |
| DiceCounts.CoerceCounts | server/game_utils/dice.py:264-275 | of dice and of earlier counts alike, every face and every value given has an entry that says how often it is shown |
| DiceCounts.HasConsecutiveRun | server/game_utils/dice.py:303-325 | of dice or earlier counts, finds a run of the length exactly when there is one within the bounds, the upper one being the largest value with an entry unless given |

## Left out

- Websocket, database, TLS, HTTP, subprocess and audio code, packet formatting, localization and menu texts: they appear
  only as maps and events.
- Password hashing and verification, legacy hash upgrades and timing defences of server/auth/auth.py; registration.
- The caller of the password reset at server/core/administration.py:1002, which does not await it: the results are about
  the reset itself once it completes.
- Case-insensitive usernames: hints and revocation fold case in the source, and the model compares names exactly.
- Transport failures in the middle of a handler other than a handoff: sending is taken to succeed.
- A game whose event handler raises in the middle of a pass: handlers return normally here.
- A second reading of the clock inside one operation, except that a refresh reads it again for its access session.
- LoginHandoff.LoginServer.DelayedDisconnectCleanup: does not model the table seat of the user who leaves nor the
  announcement (server/core/server.py:1065-1082), because they do not bear on who is bound to which socket.
- GuidedTables.AcceptedRuleIff: does not model the checks of a rule's game and profile names
  (server/core/virtual_bots.py:404-413), because neither bears on the allocation.
- Liveness of a socket that closes before it is bound.
- Presence announcements, and everything a login does after it is bound.
- Bot behaviour other than allocation: think times, joining and creating tables, saved bot states.
- Rounding of the token buckets' floating-point numbers: they are real numbers here.
- Tuples as key paths: removing their last element raises an error in the source. Lists and texts are modelled.
- Aliasing between an option value that was set and the caller's object: trees are values in `OptionDicts`,
  `ClientOptions` and `ProfileStore`. Only copying and merging are also modelled on objects, in `FreshViews`.
- Profiles whose top level, defaults, server options or one server's overrides are not dictionaries, when options are
  read or set: migration of such profiles is modelled, reading and setting options in them is not.
- Identities, accounts and certificates of the desktop client, and writing its files.
- Member changes on a table that was already destroyed, and a game's own clearing of its event queue.
- Whitespace around identifiers in voice packets, and voice scopes other than tables: no other resolver is registered.
- Saving and loading dice beyond the normalization at construction, full houses and sums: single-expression facts.
- Decks, the web client, capped histories, lifecycle states, leaderboards and deployment scripts.
