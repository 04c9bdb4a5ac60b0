# Verified models of the stateful services

Dafny models of the parts of the gateway that keep state, with proofs about them. Each service
that updates fields in place is a class or a set of loops proved against specification functions;
what the service promises is proved about those functions, over every input or every run.

Check everything with `dafny verify dfyconfig.toml`.

## What is modelled

**The account pool's slot scheduler.** Image calls take slots on access tokens, round-robin and
under a cap. While slots are out, tokens rotate, accounts are deleted, dropped and imported.
`TokenAliases` is the alias chain that a released token follows. `SlotPool` is the pool with its
callers as a state machine over atomic steps; `SlotChoice` says what its scheduler chooses, and `SlotEffects`
what each step changes, in terms of the accounts, counters and aliases alone. `SlotSafety` proves slot conservation over all runs in
which keys that come in are pooled already or unclaimed: no alias leads on from them and no call that
lost its slot to a deletion is still to release it there. `SlotConservation` assumes nothing of the kind
and proves for every step, and over every run, exactly when the counts stay those of the holders;
`AliasCircles` is about alias graphs in which resolution goes round in a circle. `SlotSharing` is what
one caller may rely on while others act. `RemoteCheck` is a confirmation by its steps and `Confirmation` by
what its last reply says. `AccountPool` is the service: the preflight that confirms
accounts remotely, with other callers' steps in between. `PoolHealth` is the refresh loop,
`RoundRobin` the fairness of the choice, `RefreshThrottle` the throttle on refreshes that follow
failed image calls. The refresh grant is that of section 6 of RFC 6749; only its effect on the
access token is modelled.

**The append-only log.** `LogText` is splitting into lines, `LogReaders` the two chunked backward
readers and the line counter, `LogPaging` listing and paging, `LogRewrite` deletion and clearing out,
`LogCodec` the encoding of entries as JSON objects, which meets what these ask of one.

**Rolling metrics.** `MetricsData` is the algebra of the counters, `MetricsRuns` several processes
sharing the file, `MetricsLoss` when they lose a call, `MetricsLog` the same processes with the log
that they backfill from, `TrendRecount` the trend
with its batch recount, `DashboardMetrics` the service.

**Small protocols.** `JsonText` is JSON as it is written, `JsonFile` the two-copy write, `JsonParser`
the reading of sections 2 to 7 of RFC 8259 with the three numbers that Python adds, `JsonCompact` JSON
without white space; `ImageTasks` the image
task life cycle, `SchedulerLease` the lease table, `KeyStore` the access keys, `ConfigFill` the
recursive filling of defaults. `Sets`, `Sequences` and `Options` are about sizes of finite sets, about
leaving elements out of lists, and a type for values that may be missing.

## How to read the models

- Locked sections are atomic steps. Ghost state (slot holders, histories, live threads) records what
  the proofs speak about and steers nothing.
- What the outside does is a parameter: remote answers, clocks, random keys, which file operation
  fails, hashing, the decoding of log entries. Where a property needs something of it, the lemma says
  so (`Sound`, `WindowHolds`, `Permitted`, `Timely`). The crash argument asks of a parser to be `Strict`
  and to read back the written values (`ReadsBack`); both are proved of the JSON parser
  (`FilesAreCrashSafe`), and an encoding of log entries as asked for is given (`SoundCodecExists`).
- A missing file reads like an empty one. Access tokens, ids and names are given as stripped texts.
- Log bytes are modelled as characters; the newline and the carriage return are single bytes in
  UTF-8 and never part of another character, so cutting a chunk inside a character changes nothing.
- Times of calls are whole hours and days counted from a common start; durations are whole milliseconds.

## Findings

Where a promise fails for some inputs, the exact condition is proved and a failing case is given:

- slots leak when a key that was rotated away comes in again while its slots are out (`ReimportLeaksSlot`)
  or is dropped after it came in again (`DropLeaksSlot`), and a token is overbooked when an account is
  deleted with a call in flight and imported again before that call ends (`VoidedReturnOverbooks`); over
  runs, `RunsConserveIff` is exact;
- an entry with U+2028 or another Unicode line break in a string is lost by the next deletion of any
  other entry (`UnicodeBreakLosesEntry`, `UnicodeBreakHidesId`, `DeletionIsExact`, `ForwardAgrees`);
- without a type the fast page's has-more answer counts lines, not entries (`LineCountMisleads`,
  `UntypedHasMore`);
- a backfill counts calls again that another process has counted and not yet flushed
  (`BackfillCountsTwice`, `RunsCountOnce`, `StepKeepsOneCount`);
- a call dated in the future is lost by a flush (`FutureCallIsLost`, `PruneTwice`, `CompleteIffNoneLost`);
- a label such as `te×t` is a model for the batch recount and none for the counters (`LabelsDecide`);
- two crashes in direct writes lose both copies (`TwoCrashesLoseAll`, `SafeStart`);
- a colon in an owner's name, with no white space behind it, reaches another owner's task (`SharedKey`,
  `ListsAreOwn`);
- a task whose thread dies, or cannot start after the record was saved, stays unfinished until a restart
  (`UnstartedIsStranded`, `StrandedIffDied`);
- a holder that lets the lease lapse is joined by another process and goes on (`LateHolderIsJoined`,
  `AtMostOneProbes`);
- in the first 30 seconds of its clock the throttle refuses first starts (`TableDecidesAsHistory`).

After a restart no task can be resumed, because the conversation is not read back (`RestartEndsAll`).

## Model

| member | source | states |
|---|---|---|
| `TokenAliases.ResolveAccessToken` | `services/account_service.py:442-448` | The resolution loop ends on every alias graph, cyclic ones included, and computes `Resolve`; a pooled token stands for itself. |
| `TokenAliases.ResolveFindsFirstPooled` | `services/account_service.py:442-448` | Resolution ends at a pooled token if and only if some chain of aliases leads to one, and then at the first pooled token of the chain. |
| `TokenAliases.ChainNeverReturns` | `services/account_service.py:442-448` | A chain that comes to a stop never comes back to where it started, so the set of seen tokens cuts nothing off. |
| `TokenAliases.RotationMovesOldOnly` | `services/account_service.py:573-591` | A rotation moves exactly the tokens that resolved to the old key to the new one; every other resolution stays, on every alias graph. |
| `TokenAliases.AddingCatchesPassing` | `services/account_service.py:1264-1307` | A key added to the pool catches exactly the tokens whose alias chain passes it. |
| `TokenAliases.DeletionKeepsOthers` | `services/account_service.py:1309-1331` | Deleting accounts together with their aliases leaves every other resolution as it was; tokens of deleted accounts end outside the pool. |
| `TokenAliases.RemovalKeepsAll` | `services/account_service.py:1357-1361` | Dropping a limited account without touching the aliases changes no resolution. |
| `AliasCircles.DropResolves` | `services/account_service.py:1357-1361` | On every alias graph: dropping a key changes no resolution but of what stood for it, and that stays if and only if the key has no alias or one that leads back to it past none of the tokens on the way. |
| `AliasCircles.DeletionKeepsSettled` | `services/account_service.py:1309-1331` | On every alias graph: a deletion keeps a resolution that does not end in a circle of aliases broken behind it. |
| `AliasCircles.UnsettledIsLeft` | `services/account_service.py:1309-1331` | And nothing resolves any more to where the others ended. |
| `SlotSafety.GrantIsFree` | `services/account_service.py:697-728` | A granted token is pooled, matches, is available, is not excluded and has room under the cap. |
| `SlotChoice.ChoiceIsExact` | `services/account_service.py:689-728` | The scheduler refuses if and only if no account asked for is normal, or of an unusual status with quota left or unknown; waits if and only if all that are have no room; otherwise grants the free key with as many free keys before it as the index modulo their number; and says the quota is spent if and only if all asked for are limited, and there are some. |
| `SlotSafety.GrantKeepsSafe` | `services/account_service.py:711-728` | Acquiring a slot keeps conservation and the cap. |
| `SlotSafety.VoidedReturnIsHarmless` | `services/account_service.py:773-783` | As long as nothing was imported under the key of a deleted account with calls out, the late release of such a call changes no counter at all. |
| `SlotSafety.ReturnKeepsSafe` | `services/account_service.py:773-783` | A release under the token as it was acquired finds the right counter through the aliases. |
| `SlotSafety.RotateCounts` | `services/account_service.py:573-591` | A rotation moves the old key's slots to the new key, adding to those already there, and every count stays the number of holders. |
| `SlotSafety.RotateKeepsSafe` | `services/account_service.py:553-591` | Rotating into a key that is unclaimed, pooled or not, keeps conservation and the absence of alias cycles, and the cap if both keys' slots fit under it. |
| `SlotSafety.DeletedResolves` | `services/account_service.py:1309-1331` | After a deletion, live tokens resolve as before and tokens of deleted accounts to a key without account and slots. |
| `SlotSafety.DeleteCounts` | `services/account_service.py:1309-1331` | A deletion voids exactly the slots on the deleted accounts; all other counts stay exact. |
| `SlotSafety.ReviseKeepsSafe` | `services/account_service.py:1333-1368` | Writing back a changed account, or dropping it as limited, keeps every count and resolution. |
| `SlotSafety.ImportKeepsSafe` | `services/account_service.py:1264-1307` | Importing an account that is pooled already, or under a key that no alias leads on from and no late release comes to, keeps every count; also when it was deleted or dropped before. |
| `SlotSafety.RelabellingKeepsSafe` | `services/account_service.py:785-848` | Handing a slot over under a token that stands for the same key changes no count. |
| `SlotSafety.StepKeepsSafe` | `services/account_service.py:711-783` | Every atomic step with pooled or unclaimed keys, handing a slot over included, keeps slot conservation, the cap, and the soundness of aliases and holders. |
| `SlotSafety.InitialIsSafe` | `services/account_service.py:111-122` | A freshly constructed service is safe. |
| `SlotSafety.RunsConserveSlots` | `services/account_service.py:711-783` | In every state of every run with pooled or unclaimed keys each in-flight count is the number of holders whose acquired token resolves to that key, and is at most the cap. |
| `SlotSafety.AllReturnedLeavesNothing` | `services/account_service.py:773-783` | In every such run, once nobody holds a slot, the in-flight table is empty. |
| `SlotSafety.StepKeepsIndexed` | `services/account_service.py:573-591` | Every step keeps the dictionary order a listing of the keys, each once. |
| `SlotEffects.ReleaseIsExact` | `services/account_service.py:773-783` | A release takes one off the counter of the key that the token stands for, which goes at zero; nothing else changes. |
| `SlotEffects.RotationIsExact` | `services/account_service.py:553-598` | A rotation moves account and counter to the new key, which comes last unless it is there, and adds one alias; every other account, counter and alias stays. |
| `SlotEffects.DeletionIsExact` | `services/account_service.py:1309-1331` | A deletion takes away exactly the accounts and counters of the keys asked for and the aliases from and to them; the index is wrapped if an account went. |
| `SlotEffects.RevisionIsExact` | `services/account_service.py:1333-1368` | Writing back changes the one account the token stands for, or drops it if it is limited and such accounts are to go. |
| `SlotEffects.ImportIsExact` | `services/account_service.py:1264-1307` | An imported account replaces the one of its key in its place, or comes last; counters and aliases stay. |
| `SlotConservation.ImportConservesIff` | `services/account_service.py:1264-1307` | The importing step keeps conservation if and only if no outstanding token leads through the new key to another one; nothing is assumed of aliases. |
| `SlotConservation.RotateConservesIff` | `services/account_service.py:573-591` | The rotating step keeps conservation if and only if no outstanding token leads through the new key to a third one; nothing is assumed of aliases. |
| `SlotConservation.RotateKeepsCapIff` | `services/account_service.py:586-588` | Rotating into any key keeps the cap if and only if both keys' slots fit under it together. |
| `SlotConservation.VoidedReturnConservesIff` | `services/account_service.py:773-783` | A release that comes after the deletion of its account keeps conservation if and only if its key has no slots out again. |
| `SlotConservation.DropConservesIff` | `services/account_service.py:1357-1361` | Dropping a limited account keeps conservation if and only if no call stands at a key whose alias, left in place, leads away from it. |
| `SlotConservation.DeleteConservesIff` | `services/account_service.py:1309-1331` | A deletion keeps conservation if and only if it breaks no circle of aliases behind a call that it spares. |
| `SlotConservation.StepConservesIff` | `services/account_service.py:553-783` | From any world with exact counts, whatever its aliases, keys and late releases, every step keeps the counts exact if and only if its guard holds. |
| `SlotConservation.RunsConserveIff` | `services/account_service.py:553-783` | Over any run whatever, every count stays the number of holders and within the cap if and only if every step meets its guard and every rotation fits. |
| `SlotConservation.SteadyRunLeavesNothing` | `services/account_service.py:773-783` | After any such run, once nobody holds a slot, the in-flight table is empty. |
| `SlotConservation.PermittedIsSteady` | `services/account_service.py:553-783` | Steps with pooled or unclaimed keys meet the guards. |
| `SlotConservation.ReimportLeaksSlot` | `services/account_service.py:553-591` | A failing run: a rotated-away key that is imported again leaves a counter behind that no holder accounts for. |
| `SlotConservation.VoidedReturnOverbooks` | `services/account_service.py:773-783` | A failing run without rotation: an account is deleted with its slot out and imported again; the late release takes a new call's slot off the counter, and one more call gets it, over the cap. |
| `SlotConservation.DropLeaksSlot` | `services/account_service.py:1357-1361` | A failing run without a late release: a rotated-away key is imported again, its slot is taken, the account is dropped as limited, and the counter stays after the release. |
| `SlotSharing.StepKeepsTogether` | `services/account_service.py:553-591` | Two tokens that stand for the same key keep doing so through every step that does not delete it. |
| `SlotSharing.OthersRunGivesRely` | `services/account_service.py:711-783` | Any number of steps of other callers take no slot away from a caller, except by deletion. |
| `SlotSharing.RefreshIsFollowed` | `services/account_service.py:600-623` | A refresh answered with a new token, with other callers' steps between lookup and write-back, reports a token under which the caller's slot is found. |
| `SlotSharing.UnchangedIsFollowed` | `services/account_service.py:603-623` | So does a refresh answered with the token it was asked for: rotations happen under one lock, so that token still is the key. |
| `SlotSharing.ChangeIsFollowed` | `services/account_service.py:1333-1368` | A change of an account, after any steps of other callers, keeps the caller's slot findable. |
| `AccountPool.AccountService.LoadAccounts` | `services/account_service.py:188-194` | The loaded dictionary: a later entry for a token wins, entries without a token are dropped, and keys stand in the order in which they are first named. |
| `AccountPool.LoadedIsLast` | `services/account_service.py:188-194` | An account is stored under a token if and only if that is not empty and some entry has it, and it is that of the last such entry. |
| `AccountPool.AccountService.constructor` | `services/account_service.py:111-122` | A new service starts with the loaded accounts, no aliases and no slots, and is safe; the cap is at least one. |
| `AccountPool.AccountService.NoReadyCandidate` | `services/account_service.py:730-771` | The refusal says that the quota is spent if and only if some account matches and all that match are limited. |
| `AccountPool.AccountService.TryAcquire` | `services/account_service.py:711-728` | One turn of the acquiring loop: refused if and only if no account asked for can serve, busy if and only if all that can are full, otherwise the free key whose turn it is, and its slot is counted; else nothing changes. |
| `AccountPool.AccountService.TakeSlot` | `services/account_service.py:723-727` | Taking a slot adds one to the index and to the counter of the token, and changes nothing else. |
| `AccountPool.AccountService.ReleaseImageSlot` | `services/account_service.py:773-783` | A release gives back the slot that was acquired under this token, wherever it is counted now. |
| `AccountPool.AccountService.ApplyRefreshedTokens` | `services/account_service.py:553-598` | The effect of a refresh answer: nothing, or the old key leaves, an alias is recorded and the in-flight count moves; and the token it reports. |
| `AccountPool.AccountService.DeleteAccounts` | `services/account_service.py:1309-1331` | Deletes accounts, their counters and aliases, and wraps the round-robin index; reports how many accounts went. |
| `AccountPool.AccountService.UpdateAccount` | `services/account_service.py:1333-1368` | Writes back a change of the account a token stands for; a limited one may be dropped instead. |
| `AccountPool.AccountService.MarkImageResult` | `services/account_service.py:1502-1547` | The end of an image call gives back the slot and updates the account; safety is kept and the caller owes nothing more. |
| `AccountPool.ImageResultIsExact` | `services/account_service.py:1515-1537` | A success takes one off a known quota, which is unknown from there on if that was the last, and makes a limited account normal with an unknown quota; a failure changes nothing. |
| `Confirmation.ConfirmationIsExact` | `services/account_service.py:1549-1600` | A confirmation by its last reply: a report leaves the account under its newest token with status, quota, quota-unknown flag, plan and both times, unless it is limited and such are dropped; an invalid token leaves it abnormal with quota 0, or deletes it if and only if removal is on; trouble changes only the time of the attempt; no other account changes; and the caller is told so. |
| `AccountPool.AccountService.RefreshAccessToken` | `services/account_service.py:600-623` | A refresh with other callers acting in between: the reported token still leads to every slot held under the given one. |
| `AccountPool.AccountService.FetchRemoteInfo` | `services/account_service.py:1549-1600` | A remote confirmation on every path: slots are followed to the confirmed token, the outcome is the one reported, and, undisturbed, the account is deleted, marked, revised or left exactly as the last reply, removal and dropping say. |
| `AccountPool.AccountService.AcquireNext` | `services/account_service.py:711-728` | The acquiring loop: it returns a refusal or a slot that the state at that moment offers. |
| `AccountPool.AccountService.TryAccount` | `services/account_service.py:785-848` | One attempt keeps its slot exactly if the confirmed account can serve the call, and gives it back otherwise; undisturbed, the pool is as the confirmation leaves it but for that slot. |
| `AccountPool.AccountService.AttemptNext` | `services/account_service.py:785-848` | One turn of the preflight uses a token that the scheduler grants and that was not attempted before under any of its names, and changes no slot but its own; it stops only as the scheduler does. |
| `AccountPool.AccountService.GetAvailableAccessToken` | `services/account_service.py:785-848` | The preflight: at most 20 attempts, no token twice under any of its names; exactly one slot, at the returned token, on success, and none on refusal; a refusal after attempts comes only when all 20 are used up or no account left can serve, and says the quota is spent if and only if every attempt found a limited account; without an attempt it is the scheduler's; it goes on waiting only while all that can serve are full. |
| `PoolHealth.ConfirmationTouches` | `services/account_service.py:1392-1451` | Whatever the remote side answers, a confirmation leaves its account checked, attempted, abnormal or gone, and makes no other account stale. |
| `PoolHealth.StaleIsOld` | `services/account_service.py:1120-1130` | Stale is a normal account whose last check and last attempt, if any, lie more than the window back. |
| `PoolHealth.MetricsAreTotals` | `services/account_service.py:1073-1100` | The metrics are the number of normal accounts checked within the window and the sum of their known quotas. |
| `PoolHealth.ReachingIsExact` | `services/account_service.py:1137-1147` | A target is reached if and only if one is set and the count is at least that, and at least one. |
| `PoolHealth.SortsByCheck` | `services/account_service.py:1131-1135` | An account that was never checked sorts as one checked at time zero. |
| `PoolHealth.StaleTokens` | `services/account_service.py:1114-1135` | The stale tokens are exactly the normal accounts neither freshly checked nor recently attempted, each once, longest unchecked first. |
| `PoolHealth.StaleIsUntouched` | `services/account_service.py:1062-1071` | Within the freshness window an account that is stale now has not been touched by this run. |
| `PoolHealth.NextBatch` | `services/account_service.py:1168-1208` | The next batch is the ten stale accounts longest without a check, or all stale ones if there are fewer, and so empty only when nothing is stale. |
| `PoolHealth.RefreshAccounts` | `services/account_service.py:1649-1712` | A request for tokens, empty and repeated ones left out, leaves none of their accounts untouched and makes no other account untouched; every outcome is explained by its answer, and successes and failures, TLS errors aside, are counted exactly. |
| `PoolHealth.RefreshStale` | `services/account_service.py:1198-1208` | One round confirms the next batch, whose accounts were untouched before and are not after; without a batch nothing changes and nothing is stale. |
| `PoolHealth.EvaluateAccountPool` | `services/account_service.py:1149-1208` | The refresh loop ends on every sequence of answers, goes round only while the targets are missed, with the right batch each time, confirms no account twice, stops only with a target reached or nothing stale, and counts every success and every failure but TLS errors. |
| `PoolHealth.TouchedGetsStaleAgain` | `services/account_service.py:1062-1071` | Outside the window the progress is lost: an account checked long enough ago is stale again. |
| `RoundRobin.PicksCycle` | `services/account_service.py:723-727` | Picks from a fixed candidate list read it cyclically from the index. |
| `RoundRobin.EveryRoundHitsAll` | `services/account_service.py:723-727` | Any n consecutive picks from a fixed list of n tokens hit each of them exactly once. |
| `RoundRobin.HitsFollowRounds` | `services/account_service.py:723-727` | After k picks each token was picked once per full round and at most once more. |
| `RoundRobin.CountsStayBalanced` | `services/account_service.py:723-727` | After any number of picks two tokens' counts differ by at most one. |
| `RoundRobin.CandidatesDistinct` | `services/account_service.py:697-709` | The candidate list names each key once. |
| `RefreshThrottle.TableDecidesAsHistory` | `services/account_service.py:1461-1478` | The pruned table allows a request if and only if the full history of starts does and, for a token that never started, the clock shows at least the cooldown. |
| `RefreshThrottle.AllowsInNumbers` | `services/account_service.py:1461-1478` | A request is allowed if and only if no refresh is active for the token, fewer than two are active, and its last start is at least 30 seconds back. |
| `RefreshThrottle.RequestForgets` | `services/account_service.py:1463-1478` | A request leaves in the table exactly the starts of active refreshes and those of the last 30 seconds, and its own. |
| `RefreshThrottle.RequestKeepsValid` | `services/account_service.py:1461-1478` | A request keeps the table a faithful summary of the history. |
| `RefreshThrottle.FinishKeepsValid` | `services/account_service.py:1480-1500` | The end of a refresh, or a thread that cannot start, keeps it too. |
| `RefreshThrottle.RunsAreThrottled` | `services/account_service.py:1461-1500` | In every run at most two refreshes are active, no token twice, two starts for a token are at least 30 seconds apart, and each decision is that of the full history, but for first starts in the first 30 seconds of the clock. |
| `RefreshThrottle.Throttle.Schedule` | `services/account_service.py:1461-1478` | The code's decision and new table, for any request. |
| `RefreshThrottle.Throttle.Discard` | `services/account_service.py:1480-1500` | The end of a refresh frees its place. |
| `LogText.SplitIsFaithful` | `services/log_service.py:253` | Splitting at newlines loses nothing: the pieces have no newline and join to the text. |
| `LogText.SplitAppend` | `services/log_service.py:252-254` | The split of two adjoining texts: only the last piece of the front and the first of the back grow together. |
| `LogText.SplitOfJoin` | `services/log_service.py:573-576` | Newline-free lines that are joined split into the same lines. |
| `LogReaders.LineCount` | `services/log_service.py:188-209` | The chunked newline count is the number of lines, for every content and chunk size. |
| `LogReaders.ChunkReads` | `services/log_service.py:248-254` | One more chunk in front: all its parts but the first are whole pieces of the file. |
| `LogReaders.IterRawLinesReverse` | `services/log_service.py:237-271` | For every content and chunk size: exactly the forward lines in reverse, numbered from the line count minus one down to zero. |
| `LogReaders.IterRecentRawLines` | `services/log_service.py:273-304` | The newest lines the fast reader can see, at most as many as asked for, numbered downwards. |
| `LogReaders.RecentAgrees` | `services/log_service.py:273-304` | Numbered alike, the fast reader gives the full reader's lines if and only if the first line is not empty; otherwise it misses just that line. |
| `LogPaging.RecentIsEnough` | `services/log_service.py:401-412` | What the fast reader does not see is no entry. |
| `LogPaging.List` | `services/log_service.py:464-474` | The newest wanted entries, at most `limit` of them, but at least one if there is one. |
| `LogPaging.ListPageSlow` | `services/log_service.py:505-554` | The slow path gives the page, the total and the has-more answer of filtering the whole reversed log. |
| `LogPaging.ListPageFast` | `services/log_service.py:401-446` | The fast path gives the items of the slow path; with a type also its has-more answer; without one it compares with the line count. |
| `LogPaging.ListPage` | `services/log_service.py:476-554` | A page request on either path is answered with the page of the filtered reversed log; limit 200 by default and within 1 and 20000; a negative offset is zero; without a type the has-more answer counts lines. |
| `LogPaging.PageIsExact` | `services/log_service.py:476-554` | A page shows the listing from its offset on, as many entries as the limit or to the end; total and has-more are those of the listing, or of the lines without a type, or the given count with one. |
| `LogPaging.LimitIsClamped` | `services/log_service.py:491` | The limit is 200 when none is given, 1 when it is negative and 20000 when it is more. |
| `LogPaging.LineCountMisleads` | `services/log_service.py:351-355` | Comparing with the line count gives the slow path's answer for a page except when the page reaches the last entry but not the last line. |
| `LogPaging.UntypedHasMore` | `services/log_service.py:351-355` | The untyped has-more answers are those of the slow path for all pages if and only if every line is an entry. |
| `LogPaging.CrawlGivesAll` | `services/log_service.py:476-554` | Asking for page after page, as long as the answers announce more, comes to an end and gives the filtered reversed log once and in order, with either count. |
| `LogRewrite.ForwardAgrees` | `services/log_service.py:561` | Forward lines and backward lines are the same if and only if the text has no line break but a newline, and carriage returns before newlines or at the end. |
| `LogRewrite.ListingForwards` | `services/log_service.py:45-58` | The entries and ids that the backward reader lists are those that forward enumeration computes. |
| `LogRewrite.ListingIsExact` | `services/log_service.py:306-310` | The listing is made of exactly the lines that are entries of the type and conditions asked for, the last first, each with its id or the digest of its line and number. |
| `LogRewrite.KeptEntries` | `services/log_service.py:564-572` | Rewriting keeps every other entry, in order and with its id, although line numbers shift. |
| `LogRewrite.KeptIsCarried` | `services/log_service.py:564-572` | Line by line, exactly the lines that are no doomed entries are carried over, in order: a line that is no entry as it is, an entry with its id. |
| `LogRewrite.BreakCodes` | `services/log_service.py:561` | The characters that end a line for `splitlines` and for a file read by lines. |
| `LogRewrite.RewrittenLists` | `services/log_service.py:556-577` | For any text, the rewritten file lists what the forward reading found, without the doomed entries, in order and with the ids. |
| `LogRewrite.RewriteKeeps` | `services/log_service.py:556-577` | With plain line breaks alone, the listing of the rewritten file is the old listing without the doomed entries. |
| `LogRewrite.DeletionIsExact` | `services/log_service.py:556-577` | Every non-empty deletion takes away exactly the listed entries if and only if forward and backward reading list the same. |
| `LogRewrite.RemovedCounts` | `services/log_service.py:564-572` | The count of removed entries is the difference between the listings; none removed means none missing. |
| `LogRewrite.Delete` | `services/log_service.py:556-577` | Deleting by id closes exactly the lines that are no entries with these ids, in order, each as it was or with its id; so what the forward reading finds under other ids is left, for any text; with plain line breaks these are the listed entries, and the count is theirs; without ids the file is left alone. |
| `LogRewrite.CleanupOld` | `services/log_service.py:579-615` | Clearing out closes exactly the lines that are no expired entries, in order, each as it was or with its id, for any text; a dry run, and a run that finds none, leave the file as it is. |
| `LogRewrite.ExpiredByDays` | `services/log_service.py:582-601` | An entry is expired if and only if it has a readable time that lies more than the retention days back, and more than one day. |
| `LogCodec.SoundCodecExists` | `services/log_service.py:49-62` | JSON objects, one to a line without white space, are an encoding as deletion asks for: entries read back, on one line each, and a blank line is no entry. |
| `JsonCompact.ReadsCompact` | `services/log_service.py:61-62` | JSON written without white space is read back, at any nesting and with something behind it. |
| `LogRewrite.UnicodeBreakLosesEntry` | `services/log_service.py:61-62` | A failing case: an entry with U+2028 in a string, which is written raw, is listed, and lost by deleting any ids, with nothing counted as removed. |
| `LogRewrite.UnicodeBreakHidesId` | `services/log_service.py:561` | A failing case: behind such an entry one without an id is listed under a derived id that deletes nothing. |
| `LogCodec.EntriesCanSplit` | `services/log_service.py:61-62` | An entry whose last string ends in U+2028, as such an object, is split into two lines that are no entries. |
| `MetricsData.MergeCommutes` | `services/dashboard_metrics_service.py:126-150` | Merging day and hour buckets is commutative. |
| `MetricsData.MergeAssociates` | `services/dashboard_metrics_service.py:126-150` | Merging is associative, over all days, hours and counters. |
| `MetricsData.MergeUnit` | `services/dashboard_metrics_service.py:122-123` | Empty data is the unit of merging. |
| `MetricsData.PruneMerge` | `services/dashboard_metrics_service.py:205-221` | Pruning commutes with merging. |
| `MetricsData.PruneTwice` | `services/dashboard_metrics_service.py:205-221` | An earlier pruning does not show after a later one if and only if no retained day lay in the future then. |
| `MetricsData.ThirtyDays` | `services/dashboard_metrics_service.py:205-221` | Today and the 29 days before it are retained. |
| `MetricsData.HoursOfDays` | `services/dashboard_metrics_service.py:297-306` | An hour is counted under its day and its number from 0 to 23. |
| `MetricsData.OneCallCounts` | `services/dashboard_metrics_service.py:263-277` | What one call adds to the total, the successes, the failures and the rate-limited calls. |
| `MetricsData.OneCallTallies` | `services/dashboard_metrics_service.py:279-295` | What one call adds to each named counter: a model's time grows by its duration if that is positive, and its timed calls by one unless the duration is unreadable. |
| `MetricsData.AppliedIsMerged` | `services/dashboard_metrics_service.py:263-306` | Counting a call in place is merging the data of that call alone. |
| `MetricsData.RecordedIsRecount` | `services/dashboard_metrics_service.py:297-306` | Each day bucket and each hour bucket is what a recount of the raw calls gives. |
| `MetricsData.SpansAdd` | `services/dashboard_metrics_service.py:297-306` | Adjoining spans of hours add up, so a day's bucket is the sum of its hours'. |
| `MetricsData.LimitedAreFailed` | `services/dashboard_metrics_service.py:269-277` | Rate-limited calls are among the failed ones, and every call is failed or a success. |
| `MetricsRuns.StepAdds` | `services/dashboard_metrics_service.py:241-314` | Recording, flushing, failing to flush, backfilling and summarizing each add exactly their calls to file and pending data, up to pruning. |
| `MetricsRuns.StepKeepsTotal` | `services/dashboard_metrics_service.py:241-361` | A step of one process keeps the pruned whole of the file and all processes equal to the pruned recount. |
| `MetricsRuns.RunsCountEveryCall` | `services/dashboard_metrics_service.py:241-361` | Flush independence: after any run of any number of processes the file and all pending data hold, within the window, what there was, every recorded call once, and every call taken in a backfill once more for each backfill. |
| `MetricsRuns.SummarySeesFlushed` | `services/dashboard_metrics_service.py:353-360` | A summary misses exactly what the other processes have not flushed. |
| `MetricsRuns.SummaryMarks` | `services/dashboard_metrics_service.py:353-361` | A summary leaves something to write if and only if there was something, or it left out a day. |
| `MetricsRuns.OrderIsIrrelevant` | `services/dashboard_metrics_service.py:329-335` | The counters depend on the multiset of calls only, not on their order. |
| `MetricsRuns.FutureCallIsLost` | `services/dashboard_metrics_service.py:218-220` | A call dated tomorrow is lost for good by today's flush. |
| `MetricsLoss.StepWrites` | `services/dashboard_metrics_service.py:241-338` | A step keeps all that file and process had and every call it counts, but for the days that a save prunes. |
| `MetricsLoss.CompleteIffNoneLost` | `services/dashboard_metrics_service.py:218-220` | Over any run in which days go forward, with calls of any date, file and pending data hold every call of the window at its end if and only if no save dropped a day of that window that lay in its own future. |
| `MetricsLog.StepKeepsOneCount` | `services/dashboard_metrics_service.py:316-338` | A step keeps the counters one count of the log if and only if it is no backfill for which a call of the window lies between where counting began and where the log was read. |
| `MetricsLog.QuietIsPending` | `services/dashboard_metrics_service.py:316-338` | At a backfill that condition says: pending or still to be counted is just what was logged after the reading. |
| `MetricsLog.RunsCountOnce` | `api/system.py:925-931` | Over any run of logging, counting, flushing, backfilling and reading by any number of processes the counters stay one count of the log if and only if every backfill meets the condition. |
| `MetricsLog.BackfillCountsTwice` | `api/system.py:925-931` | A failing run: a call that one process has pending is backfilled by another from the log and flushed by the first; the file counts it twice. |
| `MetricsLog.SummaryIsCount` | `services/dashboard_metrics_service.py:353-360` | With one count kept, the others flushed and every logged call counted, a summary shows the count of the log. |
| `MetricsLog.StartsAgree` | `services/dashboard_metrics_service.py:316-338` | Counts of the log from two places on agree if and only if no call between them is in the window. |
| `TrendRecount.IndexIsSpan` | `api/system.py:428-436` | A call falls into the bucket whose span of hours contains it, for hourly and daily buckets. |
| `TrendRecount.RangesByNumber` | `services/dashboard_metrics_service.py:340-351` | The last 24 hours, 7 days or 30 days, or 24 days for any other range, ending with the current hour or day. |
| `TrendRecount.FailedIsOtherwise` | `api/system.py:465-471` | The failed calls shown for a span are those that failed without being rate-limited. |
| `TrendRecount.ShownIsRetained` | `services/dashboard_metrics_service.py:340-351` | All shown buckets lie in the retained days. |
| `TrendRecount.StoredIsRecounted` | `services/dashboard_metrics_service.py:362-373` | The stored buckets shown for any range are the recounted ones. |
| `TrendRecount.SeriesStep` | `api/system.py:438-484` | One more call changes at most the bucket it falls into, by counting it there. |
| `TrendRecount.ShownOnce` | `api/system.py:503-522` | A trend is determined by the buckets it shows. |
| `TrendRecount.BatchTrend` | `api/system.py:399-492` | The one-pass batch recount shows the recounted buckets: totals, successes, other failures, rate-limited calls and a row per model by its own label test. |
| `TrendRecount.TotalsAgree` | `api/system.py:399-401` | The batch total, which counts all calls, is the total of the shown window if and only if every call lies in it. |
| `TrendRecount.LabelsDecide` | `api/system.py:216-223` | Over the same calls the stored trend is the batch trend if and only if no shown call has a label that only the batch test takes for a model. |
| `DashboardMetrics.MergeBucket` | `services/dashboard_metrics_service.py:108-119` | The loop over the counters adds every counter of the source. |
| `DashboardMetrics.MergeMetrics` | `services/dashboard_metrics_service.py:126-150` | The nested loops compute the merge. |
| `DashboardMetrics.PruneDays` | `services/dashboard_metrics_service.py:205-221` | The loop keeps exactly the retained days and reports whether anything went. |
| `DashboardMetrics.ModelRows` | `services/dashboard_metrics_service.py:375-383` | The loops give one row per counted model with its count in every bucket. |
| `DashboardMetrics.StoredTrend` | `services/dashboard_metrics_service.py:362-423` | The trend read off stored data shows its buckets. |
| `DashboardMetrics.DashboardMetricsService.RecordCallLog` | `services/dashboard_metrics_service.py:308-314` | Recording counts a call with a readable time into the pending data. |
| `DashboardMetrics.DashboardMetricsService.Flush` | `services/dashboard_metrics_service.py:241-261` | A flush merges, prunes and saves, and empties the pending data; a failed one loses nothing. |
| `DashboardMetrics.DashboardMetricsService.BackfillIfEmpty` | `services/dashboard_metrics_service.py:316-338` | A backfill counts the logged calls exactly if nothing is pending and nothing is retained. |
| `DashboardMetrics.DashboardMetricsService.GetSummary` | `services/dashboard_metrics_service.py:340-423` | A summary shows the file merged with the own pending data, changing neither. |
| `DashboardMetrics.TrendsAgree` | `services/dashboard_metrics_service.py:340-423` | After any run whose backfills meet the condition, once the others have flushed and every logged call is counted, the incremental trend equals the batch recount of the log, for every range, if and only if the two label tests agree on the shown calls. |
| `JsonText.RenderIsNeutral` | `services/json_file.py:74` | Rendered JSON closes every bracket and string it opens and never more. |
| `JsonText.CutOffIsOpen` | `services/json_file.py:74` | A cut-off object or array leaves a bracket open; it is closed exactly when it is complete. |
| `JsonText.AtomsAreExact` | `services/json_file.py:74` | Written numbers are those of the grammar of section 6 of RFC 8259, all of them; the other atoms are three literal names and the three numbers that Python adds. |
| `JsonText.EscapesByCode` | `services/json_file.py:74` | Quote, backslash and the characters below 32 are escaped, five by a letter and the others by their code in four digits, and nothing else is. |
| `JsonText.IndentIsTwo` | `services/json_file.py:74` | A line is indented by two spaces for each level. |
| `JsonText.WrittenItems` | `services/json_file.py:74` | Items stand on lines of their own with a comma between them; what is empty stays on one line. |
| `JsonText.WrittenFields` | `services/json_file.py:74` | So do fields, each with its quoted name, a colon and a space. |
| `JsonText.ObjectsAreExact` | `services/json_file.py:74` | Any text can be written, and an object if its values can and no two of its keys are the same. |
| `JsonParser.AcceptedIsClosed` | `services/json_file.py:33` | No text with an open bracket or string is accepted by the parser. |
| `JsonParser.ReadsValue` | `services/json_file.py:74` | A written value, at any nesting and with something behind it, is read back as itself with that left over. |
| `JsonParser.OneValue` | `services/json_file.py:74` | Written JSON is unambiguous: two values whose texts, with something behind them, agree are the same value. |
| `JsonParser.WrittenIsReadBack` | `services/json_file.py:33` | What is written reads back, with or without the final newline, for callers that ask for its type. |
| `JsonFile.ReadJsonFile` | `services/json_file.py:15-44` | Reading gives the primary copy if it is usable, else the backup, else the default. |
| `JsonFile.WriteTextWithFallback` | `services/json_file.py:51-69` | In every state on the way a copy is the old one or a part of the content; a proper part only in the direct write; the states passed follow each other by single steps, so that none is left out. |
| `JsonFile.WriteJsonFile` | `services/json_file.py:72-93` | Every state of a write is one of the interrupted states; it raises exactly if the primary copy's write fails, and otherwise leaves that copy complete; the states passed follow each other by single steps, so that none is left out. |
| `JsonFile.CrashReadsOldOrNew` | `services/json_file.py:51-93` | From a completed write, a crash at any step of the next one reads as the old or the new value. |
| `JsonFile.SafeStart` | `services/json_file.py:51-93` | A start is safe against every crash if and only if its backup reads as the old value or already as the new one. |
| `JsonFile.ReplacingIsSafe` | `services/json_file.py:55-57` | As long as files can be moved into place every start is safe. |
| `JsonFile.RunsReadLast` | `services/json_file.py:72-93` | Over runs of completed writes and writes cut short in the primary copy, both copies read as the last completed value. |
| `JsonFile.RunsAreCrashSafe` | `services/json_file.py:72-93` | A crash anywhere after such a run reads as the last completed or the in-progress value. |
| `JsonParser.FilesAreCrashSafe` | `services/json_file.py:15-93` | The same for the parser itself: whatever objects or arrays of the type asked for are written, a crash anywhere reads as the last completed or the in-progress value. |
| `JsonFile.TwoCrashesLoseAll` | `services/json_file.py:58-61` | A failing run: a crash in the backup's direct write and one in the next primary's leave nothing readable. |
| `ImageTasks.CleanupKeepsBusy` | `services/image_task_service.py:688-701` | Cleaning up drops no unfinished task, with a worker or without. |
| `ImageTasks.StepKeepsOneWorker` | `services/image_task_service.py:293-340` | Every step, also one with a failing save, a thread that cannot start or one that dies, keeps one worker for an unfinished task unless that worker is dead, and none elsewhere. |
| `ImageTasks.RunsKeepInPlace` | `services/image_task_service.py:293-340` | In every run records stand under their own keys, in memory and in the file. |
| `ImageTasks.StepKeepsOnDisk` | `services/image_task_service.py:610-626` | With saves that succeed every step keeps the file up to date, but for conversations. |
| `ImageTasks.RunsKeepOneWorker` | `services/image_task_service.py:269-340` | In every run of submit, progress, finish, fail, die, resume, list and restart a task has its one worker if and only if it is unfinished and that worker has not died. |
| `ImageTasks.StrandedIffDied` | `services/image_task_service.py:328-366` | Over all runs a task is unfinished without a worker if and only if its worker died, or could not start, at or after its last start and no restart followed. |
| `ImageTasks.UnstartedIsStranded` | `services/image_task_service.py:328-339` | A failing run: the record is saved, the thread does not start, and neither submitting nor resuming gets the task going. |
| `ImageTasks.SubmitTwice` | `services/image_task_service.py:293-340` | Submitting again changes nothing and starts no second worker. |
| `ImageTasks.RestartEndsAll` | `services/image_task_service.py:678-686` | After a restart no task is unfinished and none can be resumed; exactly the interrupted ones became errors. |
| `ImageTasks.SuccessIffWon` | `services/image_task_service.py:355-466` | Over all runs with all faults: a task is recorded as a success if and only if the last thing that befell it was a worker that finished and whose result was saved; in the file, if that was so when it was last written. |
| `ImageTasks.StepKeepsHonest` | `services/image_task_service.py:355-466` | Every step keeps that. |
| `ImageTasks.EndIsExact` | `services/image_task_service.py:420-466` | A saved finish leaves a success, not timed out; a finish that cannot be saved an error, not timed out; a failure an error with the reported timeout and conversation; the file follows if a save succeeds. |
| `ImageTasks.EndedResumes` | `services/image_task_service.py:703-737` | An ended task can be resumed if and only if it failed by timeout with a conversation, reported or known before. |
| `ImageTasks.SubmitIsExact` | `services/image_task_service.py:293-340` | A submission drops what does not last, and, unless the task lasts, queues it, saves it and gives it a worker as far as that succeeds. |
| `ImageTasks.RestartIsExact` | `services/image_task_service.py:187-211` | A new process has the saved tasks that last, without conversations, the unfinished ones as errors of now. |
| `ImageTasks.StrandedStays` | `services/image_task_service.py:678-701` | A restart, and nothing else, gets a stranded task out of its state. |
| `ImageTasks.SharedKey` | `services/image_task_service.py:102-103` | Two owners can come to share a key, with stripped ids, if and only if one name, followed by a colon, starts the other, with no white space directly behind that colon. |
| `ImageTasks.OwnTasksOnly` | `services/image_task_service.py:277-282` | Where no owner's name reaches another's in this way, a caller's key finds only the caller's own task. |
| `ImageTasks.FoundAreOwn` | `services/image_task_service.py:269-291` | Listing by id then gives only the caller's requested tasks. |
| `ImageTasks.ListsAreOwn` | `services/image_task_service.py:269-291` | Requests by id return only the caller's tasks, in every state over a set of owners, if and only if no owner's name reaches another's in this way. |
| `ImageTasks.ReachedHasColon` | `services/image_task_service.py:102-103` | A name that is reached that way has a colon. |
| `ImageTasks.BlankKeepsApart` | `services/image_task_service.py:102-103` | A blank behind the colon keeps two owners apart, since ids are stripped. |
| `ImageTasks.ImageTaskService.constructor` | `services/image_task_service.py:187-211` | Loading, ending unfinished tasks as errors, and dropping old ones, record by record. |
| `ImageTasks.ImageTaskService.Cleanup` | `services/image_task_service.py:688-701` | Drops exactly the terminal tasks last updated longer ago than the retention days, and one day. |
| `ImageTasks.ImageTaskService.Submit` | `services/image_task_service.py:293-340` | A new task is queued and saved with one worker; an existing one is returned as it is; a blank id is refused; a failing save or start raises and leaves the record. |
| `ImageTasks.ImageTaskService.StartTask` | `services/image_task_service.py:366` | A worker's first update makes the record running and not timed out; if it cannot be saved the worker is gone. |
| `ImageTasks.ImageTaskService.ReportProgress` | `services/image_task_service.py:368-371` | A progress report changes the time of the update and nothing else, and nothing at all for a task that is gone. |
| `ImageTasks.ImageTaskService.EndTask` | `services/image_task_service.py:420-466` | A worker's terminal update, on the record, the file and the worker: success only for a saved finish, else an error with the reported timeout and conversation; a success that cannot be saved is overwritten by an error. |
| `ImageTasks.ImageTaskService.ListTasks` | `services/image_task_service.py:269-291` | Requested tasks in order and the missing ids; or every task of the owner once, the latest update first. |
| `ImageTasks.ImageTaskService.ResumePoll` | `services/image_task_service.py:703-737` | A task is resumed if and only if it failed with a timeout and has a conversation; a failing save or start raises. |
| `SchedulerLease.LeaseTable.Claim` | `services/openai_survival_service.py:126-144` | A claim succeeds if and only if no unexpired row is left; a failed one changes nothing. |
| `SchedulerLease.LeaseTable.Renew` | `services/openai_survival_service.py:154-164` | A renewal moves the expiry of the owner's row only and says whether there was one. |
| `SchedulerLease.LeaseTable.Release` | `services/openai_survival_service.py:146-152` | A release takes away the owner's rows and no others. |
| `SchedulerLease.StepIsExact` | `services/openai_survival_service.py:126-164` | What a claim, a renewal, a release and a crash do to the row and to who is inside. |
| `SchedulerLease.TurnsAreEnabled` | `services/openai_survival_service.py:328-383` | A process outside may claim, and one inside, and only that, may renew, release or crash; the clock does not run back. |
| `SchedulerLease.RunsHaveOneRow` | `services/openai_survival_service.py:113-119` | In every run there is at most one lease row. |
| `SchedulerLease.OthersRowStays` | `services/openai_survival_service.py:146-164` | Renewing and releasing never touch another owner's row. |
| `SchedulerLease.OthersKeepRow` | `services/openai_survival_service.py:126-164` | Whatever steps other processes take, a row stays until it has expired. |
| `SchedulerLease.StepKeepsExclusive` | `services/openai_survival_service.py:126-144` | A step keeps exclusion if and only if it is no claim next to a holder that has let its time pass. |
| `SchedulerLease.RunsAreExclusive` | `services/openai_survival_service.py:328-383` | Whoever is inside has the row with the time it wrote last, throughout a run, if and only if no holder was late when another one claimed. |
| `SchedulerLease.LateClaimJoins` | `services/openai_survival_service.py:345-348` | A claim next to a late holder puts two processes inside. |
| `SchedulerLease.AtMostOneProbes` | `services/openai_survival_service.py:328-383` | At most one process is probing throughout a run if and only if no holder was late when another one claimed. |
| `SchedulerLease.AtMostOneInside` | `services/openai_survival_service.py:328-383` | Exclusion means one process at most. |
| `SchedulerLease.LateHolderIsJoined` | `services/openai_survival_service.py:345-348` | A failing run: a late holder is joined by another process, its renewal fails unnoticed. |
| `SchedulerLease.CrashedLeaseExpires` | `services/openai_survival_service.py:126-144` | After a crash the lease is free again exactly when its time has passed. |
| `SchedulerLease.SurvivalService.RunOnce` | `services/openai_survival_service.py:328-383` | A polling run starts if and only if the lease is free, counts what was probed, renews amid the others' steps after every probe, and leaves no row of its own however it ends; if every renewal comes in time each one finds the row. |
| `SchedulerLease.SurvivalService.ProbeAll` | `services/openai_survival_service.py:343-359` | The probes of a claimed run: each is followed by a renewal, and total, confirmed and errors are counted until one cannot be stored. |
| `SchedulerLease.ErrorsByName` | `services/openai_survival_service.py:354` | A probe error, a dead token and a missing token count as errors, and no other verdict. |
| `KeyStore.DecimalIsInjective` | `services/auth_service.py:137` | Different suffixes give different names. |
| `KeyStore.FewAreTaken` | `services/auth_service.py:135-140` | No more suffixes can be taken than there are names. |
| `KeyStore.BuildDefaultName` | `services/auth_service.py:131-140` | The suffix loop ends and gives the plain default name or the first free numbered one. |
| `KeyStore.BuildName` | `services/auth_service.py:142-148` | A given name is accepted exactly if it is free within the role; a blank one becomes a default name. |
| `KeyStore.BuildKeyHash` | `services/auth_service.py:105-115` | A key is refused exactly if it is blank, the administrator's or already stored. |
| `KeyStore.AuthService.CreateKey` | `services/auth_service.py:150-172` | A created key is appended with a free name and the first drawn key that is usable; uniqueness is kept; a refusal changes nothing. |
| `KeyStore.AuthService.UpdateKey` | `services/auth_service.py:174-206` | An update changes the asked-for fields of the first key with the id, is refused exactly for a taken name or an unusable key, and keeps uniqueness. |
| `KeyStore.AuthService.DeleteKey` | `services/auth_service.py:208-223` | Deletes exactly the keys meant, and says whether there were any. |
| `KeyStore.AuthService.Authenticate` | `services/auth_service.py:225-250` | Finds the first enabled key with the hash. |
| `KeyStore.UpdateIsExact` | `services/auth_service.py:174-206` | In a unique store an update is refused if and only if another key of the role has the name asked for, or the raw key asked for is blank, the administrator's or another key's; otherwise it changes just what was asked for. |
| `KeyStore.CreateIsExact` | `services/auth_service.py:150-172` | A creation appends one enabled key, unless its name is taken in its role or no drawn key is usable. |
| `KeyStore.FirstUsableIsFirst` | `services/auth_service.py:154-160` | The key taken is the first drawn that is not blank, not the administrator's and not stored. |
| `KeyStore.FindsIsExact` | `services/auth_service.py:174-206` | A request finds the first key with the id, if it leaves the role open or names it. |
| `KeyStore.DeleteIsExact` | `services/auth_service.py:208-223` | A deletion leaves exactly the keys of another id, or of another role than the one asked for. |
| `KeyStore.DefaultNames` | `services/auth_service.py:36-38` | The default names of the two roles. |
| `KeyStore.CreateStaysUnique` | `services/auth_service.py:150-172` | A create request for a fresh id keeps the store unique, whatever name is given and whatever keys are drawn. |
| `KeyStore.UpdateStaysUnique` | `services/auth_service.py:174-206` | An update request keeps the store unique, whatever it asks for. |
| `KeyStore.DefaultIsFree` | `services/auth_service.py:131-140` | The default name, plain or numbered, is free within the role. |
| `KeyStore.RunsStayUnique` | `services/auth_service.py:150-223` | Every run of create, update and delete requests keeps ids, hashes, and names within a role unique, given fresh ids and a digest that is never blank. |
| `KeyStore.MatchIsUnique` | `services/auth_service.py:225-250` | In a unique store a raw key stands for its own record if that is enabled, and otherwise for none. |
| `KeyStore.DeletedMatchesNothing` | `services/auth_service.py:208-250` | A deleted key stands for nothing any more. |
| `ConfigFill.FillingKeeps` | `scripts/init_proxy_config.py:116-125` | Filling alters no value that is present, at any depth. |
| `ConfigFill.FillingCompletes` | `scripts/init_proxy_config.py:116-125` | After filling nothing of the defaults is missing. |
| `ConfigFill.FillingChangesIncomplete` | `scripts/init_proxy_config.py:116-125` | Filling changes the tree if and only if something was missing. |
| `ConfigFill.FillingIsIdempotent` | `scripts/init_proxy_config.py:116-125` | Filling twice is filling once. |
| `ConfigFill.FillingGivesDefaults` | `scripts/init_proxy_config.py:128-133` | Filling gives exactly the defaults if and only if the input is a sub-tree of them. |
| `ConfigFill.DeepFillMissing` | `scripts/init_proxy_config.py:116-125` | The recursive loop computes the filling and reports a change if and only if there was one. |
| `ConfigFill.LooksLikeRepositoryDefault` | `scripts/init_proxy_config.py:128-133` | A configuration counts as untouched if and only if it is no dictionary or a sub-tree of the defaults. |

## Left out

- Field-by-field account normalization, the quota-unknown rule of one source, checkout links and saving: the scheduler reads only the modelled fields.
- Plan and source matching: an arbitrary predicate on accounts.
- PoolHealth.RefreshAccounts: the confirmations of one batch run one after the other, in any order, not interleaved in ten threads.
- PoolHealth.EvaluateAccountPool: no other caller acts while the loop runs, neither between confirmations nor within one; accounts that others import or reset meanwhile could keep it going.
- AccountPool.AccountService.GetAvailableAccessToken: other callers bring in pooled or unclaimed keys only, and a refresh names a key that was never pooled, if not the one it was asked for; what happens otherwise is said of the counts (`RunsConserveIff`), not of one caller.
- AccountPool.AccountService.AcquireNext: waiting for a free slot is bounded by a number of turns, since nothing forces a slot to come free.
- AccountPool.AccountService.FetchRemoteInfo: token expiry and cooldowns of the refresh only decide whether an answer with a new token comes; they are part of the answer.
- Refresh-token keep-alive, text tokens, export, progress tracking and log messages of the account service: they touch no slot.
- The concurrency setting is fixed for a run; lowering it while slots are out is not modelled.
- The line-count cache of the log, and decoding errors in its bytes.
- LogPaging.ListPageFast: the total of a typed page is a byte-level estimate in the code and a parameter here.
- Facets and statistics of log pages, and the size of what clearing out removes.
- LogRewrite.Delete: an entry that is written back is assumed to read back as the same entry; number formats and duplicate keys in its JSON are not modelled.
- Average durations of models: the two trend implementations treat a missing duration differently, and floating point sums depend on order.
- Labels, recent failures and the per-endpoint tables of the batch summary: the tables are the same counters as in the buckets.
- MetricsRuns.StepAdds: a flush that fails after its save took effect is not a step; the save reports an error only when the primary copy was not written.
- Timers: a scheduled flush is a flush at any time.
- JsonParser.WrittenIsReadBack: numbers are kept as they are spelled; surrogate escapes, which writing never uses, are refused, since characters here are Unicode scalar values; the decoding of UTF-8 is not modelled.
- MetricsLog.RunsCountOnce: entries taken out of the log by deletion or clearing out; a backfill after that counts fewer calls.
- Two writers of one JSON file at the same time, and temporary files left behind by a crash.
- Results, prompts, handlers and details of image tasks; a save that fails while a loaded file is recovered.
- SchedulerLease.SurvivalService.RunOnce: probes are counted in the order given; their threads, contents and the scheduler's waiting are left out. One run at a time per process.
- KeyStore.AuthService.CreateKey: random keys come from a list, ids are new; the time of last use is not kept.
- ConfigFill.DeepFillMissing: dictionaries are values here, so aliasing between target and defaults, which the code avoids by copying, cannot occur.
- The editable-file tasks, which are a weaker copy of the image tasks; proxy formats; configuration normalizers; all network code, routes and the web front end.
