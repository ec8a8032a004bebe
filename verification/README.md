# Outbound machinery of the Telegram gateway: model and proofs

The Telegram plugin of this repository sits between agents and the Bot API. It paces every
outbound call, streams drafts by editing one message in place, takes back messages that a
later reply replaces, remembers 429 penalties, cuts long markdown bodies into messages, and
serializes calls per chat. This project models that machinery in Dafny 4.11 and proves what
it promises, over every input and every interleaving.

Run `dafny verify dfyconfig.toml` in this directory.

| file | what it models |
|---|---|
| `FuseCeilings.dfy` | the fuse's configuration, ceilings, 429 tighten level and its lazy decay |
| `FuseGrades.dfy` | what ceilings, reserve and tighten level come to in numbers |
| `FuseLog.dfy` | reservations as one history, and the counting arguments behind each rate bound |
| `FuseProtocol.dfy` | the edit-flood fuse as a step relation over concurrent calls |
| `FuseBounds.dfy`, `FuseRuns.dfy` | what each step keeps, and the guarantees over whole runs |
| `FuseTiers.dfy` | each tier's rate limit by its configured value, and when a call is admitted, put to sleep, denied or released |
| `FuseHoldings.dfy` | what a call holds on its way through the tiers |
| `FuseBursts.dfy` | no burst of edits is swallowed, over runs of the event loop |
| `FusePaths.dfy`, `FusePoolLimit.dfy`, `FuseBurstLimit.dfy`, `FuseReserveLimit.dfy` | runs that show where the pool bound, the burst guarantee and the reply reserve end, so that their conditions are exact |
| `FuseWindows.dfy`, `FuseMachine.dfy` | the fuse as it runs (timestamp lists, counters, give-back lists), proved to take exactly the protocol's steps |
| `DraftStream.dfy` | the edit-in-place draft stream, as a step relation and as the object that runs it |
| `SupersedeDecision.dfy`, `SupersedeRegistry.dfy` | the flushed-turn supersede decision and registry |
| `FloodLedger.dfy` | the 429 ledger and its verdict |
| `FloodEpisodes.dfy` | the ledger's episodes as blocks of 429s, and the verdict as a statement about the 429s observed |
| `MarkdownText.dfy`, `MarkdownCut.dfy`, `MarkdownSplit.dfy` | safe cuts, chunking and re-capping of markdown bodies |
| `LineRuns.dfy`, `ParagraphSpacers.dfy` | the paragraph-spacer pass |
| `AnswerReady.dfy` | the answer-ready debounce and staging controller |
| `FloodWindows.dfy` | scoped flood windows persisted across restarts |
| `ChatLock.dfy` | the per-lane promise chain |
| `Common.dfy` | what several components share |

**Concurrency.** Every `await` of the source is a step boundary. A protocol is a `State`, an
`Event` type, `Enabled` and `Next`; a run is a list of events each enabled where it is taken,
with other calls, timers, API answers and the clock interleaved freely. In particular the fuse
decides to drop a call in one step and `apply` resumes, hands slots back and leaves the
in-flight count in a later one, and an alert's check, delivery and mark are three steps.
`FuseBursts` alone restricts runs, to those of an event loop: timers fire and the clock moves
only when no microtask of the fuse is queued. Code that changes fields in place is a class whose
methods are proved `Abs() == Next(…, old(Abs()), …)`; the theorems are about `Next` and runs, and
so hold of the class.

**Rates** are counted on reservation times, not wire times: a call may wait again at a later
tier after it has reserved.

## What turned out not to hold

Each of these keeps the code as it is, gives an input, and proves when the promise holds.

* *Cosmetic pool bound.* With a late-release budget of 0 and tightening on, the budget's
  ceiling is still raised to 1 (`edit-flood-fuse.ts:929`), and in every such configuration that
  lets cosmetic edits through at level 0 a run of the event loop, with one 429 in it, exceeds pool
  plus budget (`FusePoolLimit.ZeroBudgetLeaks`). With fair share on, the bound holds if and only
  if the budget is at least 1 or tightening is off (`FusePoolLimit.PoolBoundExact`).
* *No burst swallowed.* A dropped frame counts as in flight until `apply` resumes. With a
  `maxDeferMs` of 0 two frames that arrive together are each dropped for the other's sake
  (`FuseBurstLimit.BurstSwallowed`); bursts are safe if and only if `maxDeferMs` is at least 1
  (`FuseBurstLimit.BurstGuardExact`).
* *Reply reserve.* Chat actions tagged with another class than cosmetic draw on the reserve, and
  can fill the whole window (`FuseReserveLimit.TaggedActionsEatReserve`). The promise holds in
  every run if and only if no chat action arrives so tagged, or the reserve is no larger than the
  late-release budget to begin with (`FuseReserveLimit.ReserveExact`).
* *Eviction.* The test for dead keys ignores the token window; if that is the widest, live token
  slots are forgotten (`FuseWindows.TokenEvictionForgets`; `FuseWindows.TableEvict` is exact).
* *Draft stream, at most one call at a time.* A follow-up chained between the loop's last look
  at the pending text and its promise settling starts a call after `finalize` began to wait; if
  a shed snapshot is held, `finalize` then sends it beside that call
  (`DraftStream.OvertakenCalls`), and the older text can land last
  (`DraftStream.OvertakenFinalText`). Without that step there is never a second call, whatever
  the API answers (`DraftStream.AtMostOneOutstanding`); from any such step one can follow
  (`DraftStream.OvertakingDoubles`).
* *Draft stream, final text.* The skip of a text equal to the one on screen
  (`draft-stream.ts:252`) keeps an older shed snapshot, which `finalize` brings back
  (`DraftStream.StaleShedWins`). A text also stays behind when the message is gone by the time
  `finalize` edits it: it is put back as pending, and nothing sends it
  (`DraftStream.FinalMessageGone`). `DraftStream.FinalTextExact` is an if-and-only-if over runs.
* *Completion signal.* `completeAll` does not look at the open cap, so it revives a record past
  its cap unless a sweep removed it first. `SupersedeRegistry.RevivalRun` is a run in which it
  shows, for all limits; `SupersedeRegistry.RevivalIsVisible` states exactly when it does.
* *Plain-endpoint re-cap.* `splitPlainTextToCap` promises that every piece fits, but a text
  whose first cut leaves only blank lines on both sides yields no piece, and then the whole
  text is returned (`MarkdownSplit.NewlinesOverflow`). `MarkdownSplit.PlainFitsExactly` is the
  exact condition, and `MarkdownSplit.OnlyPaddingVanishes` says only texts of nothing but
  padding are affected.
* *Alert once per window.* The observer awaits the send between its check and its mark, and
  its ticks may overlap, so two ticks can both alert with the window open throughout and both
  marks persisted (`FloodWindows.OverlappingTicksAlertTwice`); so can one whose mark fails or is
  cut off by a restart (`FloodWindows.LostAnchorRepeats`). While the window stays open a later
  look that is due alerts again if and only if no anchor has reached the file since
  (`FloodWindows.AlertsAgainExactly`), that is, if it falls before the mark
  (`FloodWindows.OverlapExactly`).
* *Fence back-off.* The fence pattern also counts fences after a carriage return, the retreat
  looks for a newline: it can stop inside a fence (`MarkdownCut.CarriageReturnOpens`;
  `MarkdownCut.FenceCutExact` is exact).
* *Bounded ledger.* The verdict can differ from the unbounded history's when 400 newer episodes
  displace one that still counts: a ten-minute ban followed by 400 nudges turns from a severe
  penalty into mere pressure (`FloodLedger.VerdictLost`). `FloodLedger.VerdictExact` is an
  if-and-only-if.
* *Comments and code.* `format.ts:1344-1347` says an unsplittable region is emitted whole; the
  code hard-slices it, and the model follows the code.

## Model

| member | source | states |
|---|---|---|
| `FuseCeilings.CeilingInRange` | telegram-plugin/edit-flood-fuse.ts:926-930 | for every base of at least 1, ceilings stay in [1, base] and fall as the tighten level rises; base 0 becomes 1 at any positive level |
| `FuseGrades.CeilingIsGeometric` | telegram-plugin/edit-flood-fuse.ts:926-930 | for base and level of at least 1 the ceiling is at least 1, and is the whole part of base times the level-th power of the factor unless that is less than 1 |
| `FuseGrades.CeilingStrictlyFalls` | telegram-plugin/edit-flood-fuse.ts:926-930 | where the factor takes at least one slot off a base of 2 or more, every positive level is strictly below the base |
| `FuseGrades.ReserveIsShare` | telegram-plugin/edit-flood-fuse.ts:977-982 | of an effective chat budget the reserve is the configured reserve's share of the configured budget to the nearest slot, at least one slot, and cosmetic traffic reaches the rest |
| `FuseGrades.ReserveAtRest` | telegram-plugin/edit-flood-fuse.ts:977-982 | at level 0 the reserve is the configured one |
| `FuseCeilings.ReplyAdvantage` | telegram-plugin/edit-flood-fuse.ts:943-988 | no tightening takes a critical ceiling below min(base, critical floor); cosmetic traffic's share of the chat budget is strictly below every other class's whenever the reserve is positive; the cosmetic message ceiling never goes below the floor |
| `FuseCeilings.DecayIsClosedForm` | telegram-plugin/edit-flood-fuse.ts:886-890 | the lazily stepped level equals one level at the hold time and one more per decay period after it |
| `FuseCeilings.DecayComposes` | telegram-plugin/edit-flood-fuse.ts:886-890 | looking early and again later gives the state of looking later only |
| `FuseCeilings.QueriesAreUnobservable` | telegram-plugin/edit-flood-fuse.ts:886-1071 | over any history of queries and 429s, the level seen later depends on the 429s alone |
| `FuseCeilings.FloodHolds` | telegram-plugin/edit-flood-fuse.ts:1064-1090 | between consecutive 429s the level does not decay before the penalty plus one period is over, and never exceeds its cap |
| `FuseGrades.FloodGrades` | telegram-plugin/edit-flood-fuse.ts:1064-1090 | after decay, a 429 raises the level by 1, 2 or 3 for penalties up to 5 s, a minute and ten minutes, beyond that to the maximum, and the first level goes when penalty and one period are over |
| `FuseGrades.LongerTightensMore` | telegram-plugin/edit-flood-fuse.ts:1085-1090 | a longer penalty never tightens less |
| `FuseGrades.PersistedGrades` | telegram-plugin/edit-flood-fuse.ts:911-914 | a persisted flood window is graded in the same bands by the time it has left, and worth nothing once over |
| `FuseCeilings.EffectiveLevelBounded` | telegram-plugin/edit-flood-fuse.ts:886-915 | the level in force, with any persisted flood window, is between the decayed level and the configured maximum |
| `FuseLog.GiveBackKeepsBound` | telegram-plugin/edit-flood-fuse.ts:1125-1130 | handing slots back keeps every rate bound whose slack is not handed back |
| `FuseLog.LatePushKeepsBound` | telegram-plugin/edit-flood-fuse.ts:1229-1252 | a late release that charges the overshoot budget at the same instant keeps a lane's bound of cap plus overshoot in every span |
| `FuseLog.AggregateIsMerge` | telegram-plugin/edit-flood-fuse.ts:1203-1224 | the aggregate floor window counts exactly the slots of the messages' own floor windows, on any history, given back or not |
| `FuseBounds.AdmissionHasRoom` | telegram-plugin/edit-flood-fuse.ts:1199-1332 | an admission on time finds room in every cosmetic window it is charged to |
| `FuseBounds.LateReleaseIsPaid` | telegram-plugin/edit-flood-fuse.ts:1229-1375 | a late release of a cosmetic edit finds room in its own chat's overshoot budget, at every tighten level |
| `FuseBounds.WaitZeroHasRoom` | telegram-plugin/edit-flood-fuse.ts:1030-1042 | the wait is 0 exactly when fewer than the ceiling were reserved in the trailing window |
| `FuseTiers.AdmittedExactly` | telegram-plugin/edit-flood-fuse.ts:1199-1332 | at each tier a call is admitted if and only if the tier's window holds fewer reservations than its configured limit, tightened to the level in force for its class; a fair cosmetic edit takes a floor slot whenever there is one, else the remainder |
| `FuseTiers.NoRoomExactly` | telegram-plugin/edit-flood-fuse.ts:1229-1260 | without room a call sleeps if and only if its own deadline is still to come; after it, it is denied if and only if it may be shed or its late budget is spent, and else released, a cosmetic edit before the token tier paying for that |
| `FuseTiers.WaitsForOldest` | telegram-plugin/edit-flood-fuse.ts:1030-1042 | the window does not change before the wait is over, and then its oldest slot is gone; an empty window with a limit of 0 is waited out |
| `FuseTiers.SleepsUntil` | telegram-plugin/edit-flood-fuse.ts:1366-1392 | a sleep ends at the first of three moments: the tier's wait is over, the call's time is up, the notice cap |
| `FuseRuns.StepKeepsInv` | telegram-plugin/edit-flood-fuse.ts:1199-1560 | every step of every call keeps the call table's shape, time order and all lane, floor and share bounds |
| `FuseTiers.TierBound` | telegram-plugin/edit-flood-fuse.ts:1199-1560 | in every run and every span of a tier's window, the reservations on the message, chat edit, send, chat total and token tiers that are not late releases are at most that tier's configured limit |
| `FuseHoldings.EveryTierCharged` | telegram-plugin/edit-flood-fuse.ts:1395-1560 | in every run, a call that went downstream holds a slot of every tier of its kind: token always, chat total with a chat, sends for a send, message and chat edit (or floor, or remainder) for an edit |
| `FuseHoldings.DroppedHoldsNothing` | telegram-plugin/edit-flood-fuse.ts:1466-1541 | in every run, a dropped call is an edit or a chat action and holds no slot but those of late releases it paid for |
| `FuseRuns.NewestFrameWaits` | telegram-plugin/edit-flood-fuse.ts:1371-1391 | in every run at most one frame of a message sleeps at its message tier; a newer one going to sleep supersedes it |
| `FuseRuns.CosmeticPoolBound` | telegram-plugin/edit-flood-fuse.ts:784-803 | in every run and every span of the chat window, over all floor lanes and the remainder lane, cosmetic edits hold at most the pool plus the late-release budget, whatever the 429s |
| `FusePoolLimit.ZeroBudgetLeaks` | telegram-plugin/edit-flood-fuse.ts:926-930 | in every configuration with fair share, a budget of 0, tightening on and cosmetic edits passing at level 0, a run of the event loop in which the level rises once exceeds pool plus budget |
| `FusePoolLimit.PoolBoundExact` | telegram-plugin/edit-flood-fuse.ts:1229-1252 | with fair share on, pool plus budget bounds every span of every run, and of every run of the event loop, if the budget is at least 1 or tightening is off, and, where cosmetic edits pass at level 0, only if |
| `FuseRuns.ReplyReserve` | telegram-plugin/edit-flood-fuse.ts:977-988 | in every run, a non-cosmetic call waits at the shared chat tier only if at least the reserve less the late-release budget of that window, less the slots of chat actions tagged non-cosmetic, was taken by calls other than cosmetic edits and chat actions |
| `FuseReserveLimit.ReserveExact` | telegram-plugin/edit-flood-fuse.ts:977-988 | the promise without that last discount holds in every run if and only if no chat action arrives tagged non-cosmetic, or the untightened reserve is within the late-release budget |
| `FuseReserveLimit.TaggedActionsEatReserve` | telegram-plugin/edit-flood-fuse.ts:1547-1556 | in every configuration some run at level 0 makes a useful call wait with nothing but tagged chat actions in the window |
| `FuseRuns.NoStarvation` | telegram-plugin/edit-flood-fuse.ts:1203-1224 | while no more messages than floor slots hold floor reservations, a message below its floor is admitted to the chat tier at once, at every tighten level |
| `FuseBursts.LastHopeLeaves` | telegram-plugin/edit-flood-fuse.ts:1334-1391 | where calls may wait, the last frame of a message that is neither superseded nor dropped goes only by getting through, or as a cosmetic frame with the late-release budget spent |
| `FuseBursts.NoBurstSwallowed` | telegram-plugin/edit-flood-fuse.ts:1451-1527 | with `maxDeferMs` of at least 1, any burst of non-cosmetic edits to one message, from in-flight count 0 back to 0, gets at least one of its frames through |
| `FuseBurstLimit.BurstSwallowed` | telegram-plugin/edit-flood-fuse.ts:1334-1341 | with `maxDeferMs` 0, a burst of two of which neither passes |
| `FuseBurstLimit.BurstGuardExact` | telegram-plugin/edit-flood-fuse.ts:1451-1527 | no burst is ever swallowed if and only if `maxDeferMs` is at least 1 |
| `FuseRuns.NapBounds` | telegram-plugin/edit-flood-fuse.ts:1254-1266 | every sleep lasts at least 1 ms and ends by the shared deadline |
| `FuseRuns.SleepsAreBounded` | telegram-plugin/edit-flood-fuse.ts:1327-1391 | in every run, on any clock, each call sleeps at most `maxDeferMs` times, and no sleep is set past its deadline |
| `FuseRuns.HoldIsBounded` | telegram-plugin/edit-flood-fuse.ts:1279-1391 | when sleepers wake on time, no unfinished call is older than `maxDeferMs` |
| `FuseRuns.NeverStuck` | telegram-plugin/edit-flood-fuse.ts:1372-1391 | an unfinished call whose sleep is over, or a superseded frame of its message, can always take a step |
| `FuseRuns.EveryCallFinishes` | telegram-plugin/edit-flood-fuse.ts:1395-1560 | in every such run, a call is downstream or dropped once `maxDeferMs` have passed since it arrived |
| `FuseWindows.TableGiveBack` | telegram-plugin/edit-flood-fuse.ts:1125-1130 | splicing a call's give-back list out of the timestamp lists shows exactly the history without its returnable slots |
| `FuseWindows.TableEvict` | telegram-plugin/edit-flood-fuse.ts:1010-1027 | deleting a key is unobservable if and only if nothing in its window is live |
| `FuseWindows.TokenEvictionForgets` | telegram-plugin/edit-flood-fuse.ts:1010-1027 | with a token window wider than the others, the eviction test passes on a key with a live slot |
| `FuseMachine.WithoutLast` | telegram-plugin/edit-flood-fuse.ts:1125-1130 | the backward scan removes the last entry equal to the given time, if any |
| `FuseMachine.EditFloodFuse.LevelAt` | telegram-plugin/edit-flood-fuse.ts:886-915 | the decay loop computes the recursive decay, and returns the effective level without recording the persisted window |
| `FuseMachine.EditFloodFuse.NoteFlood` | telegram-plugin/edit-flood-fuse.ts:1064-1071 | a 429 tightens by its step, holds for penalty plus period, and touches no window or call |
| `FuseMachine.EditFloodFuse.Prune` | telegram-plugin/edit-flood-fuse.ts:999-1002 | after shifting expired entries, the list is exactly the live part of the history |
| `FuseMachine.EditFloodFuse.WaitFor` | telegram-plugin/edit-flood-fuse.ts:1030-1042 | the wait computed on the pruned list is the protocol's wait, also for a ceiling of 0 |
| `FuseMachine.EditFloodFuse.Refuse` | telegram-plugin/edit-flood-fuse.ts:1338-1342 | a denied call is marked so, and still holds its slots and its count |
| `FuseMachine.EditFloodFuse.Leave` | telegram-plugin/edit-flood-fuse.ts:1487-1527 | when `apply` resumes, a denied call hands back every slot it holds and leaves the in-flight count |
| `FuseMachine.EditFloodFuse.AwaitRoom` | telegram-plugin/edit-flood-fuse.ts:1279-1391 | one pass of the wait loop comes to the protocol's outcome: admit, release, pay, drop or sleep |
| `FuseMachine.EditFloodFuse.AwaitCosmeticChatFair` | telegram-plugin/edit-flood-fuse.ts:1199-1268 | the same for the floor and remainder lanes |
| `FuseMachine.EditFloodFuse.Run` | telegram-plugin/edit-flood-fuse.ts:1395-1560 | running a call to its next await takes exactly the protocol's attempt at the level in force, and keeps lists, counters and give-back lists faithful |
| `FuseMachine.EditFloodFuse.Apply` | telegram-plugin/edit-flood-fuse.ts:1451-1456 | an arriving edit is counted in flight before its first await |
| `FuseMachine.EditFloodFuse.TimerFired` | telegram-plugin/edit-flood-fuse.ts:1372-1391 | a sleeper that wakes clears its waiter entry and runs again |
| `FuseMachine.EditFloodFuse.ResumeDropped` | telegram-plugin/edit-flood-fuse.ts:1376-1386 | a superseded or denied call resumes exactly as the protocol says |
| `FuseMachine.EditFloodFuse.Evict` | telegram-plugin/edit-flood-fuse.ts:1010-1027 | evicting a key that passes the source's test keeps every window right if and only if nothing of it is live, as is so for every window no wider than the widest message or chat window |
| `DraftStream.NoLostWakeUp` | telegram-plugin/draft-stream.ts:316-388 | in every run of a new stream, whatever the API answers, a pending text before `finalize` on a live stream has a loop, a timer or a follow-up that will look at it |
| `DraftStream.AtMostOneOutstanding` | telegram-plugin/draft-stream.ts:316-433 | in every run of a new stream without a doubling step, whatever the API answers, at most one send or edit is outstanding at any point |
| `DraftStream.OvertakingDoubles` | telegram-plugin/draft-stream.ts:367-418 | wherever a run without doubling has led, a doubling step goes on to two calls at once, with any number of follow-ups due, and any other step leaves at most one |
| `DraftStream.OvertakenCalls` | telegram-plugin/draft-stream.ts:367-418 | a run with two calls outstanding |
| `DraftStream.OvertakenFinalText` | telegram-plugin/draft-stream.ts:367-418 | a run that ends on the older text |
| `DraftStream.FinalTextExact` | telegram-plugin/draft-stream.ts:240-433 | over runs in which calls land, are shed as drafts, find their message gone or unchanged, texts fit and nothing doubles, once quiet after `finalize` the chat shows the intended text if and only if `finalize` did not come to its flush with nothing pending and a held shed snapshot other than the newest text, and no text is left behind; one is left behind only when `finalize`'s own call finds the message gone |
| `DraftStream.FinalTextShown` | telegram-plugin/draft-stream.ts:240-433 | so the final text, or else the last update, is shown when no snapshot equal to the one on screen is skipped while an older shed one is held and `finalize`'s own call finds its message |
| `DraftStream.FinalMessageGone` | telegram-plugin/draft-stream.ts:286-294 | a run in which `finalize`'s own edit finds the message gone and its text, put back as pending, is never sent |
| `DraftStream.CallsAreDue` | telegram-plugin/draft-stream.ts:240-314 | in every run, whatever the API answers, a call is an edit if and only if a message was given or a send landed with no "not found" since; it is started only on a live stream, inside the throttle, for a text within the limit other than the last shown |
| `DraftStream.NotFoundIsResent` | telegram-plugin/draft-stream.ts:286-294 | in every run, when a loop's call finds the message gone, its text or a newer one is pending, and the loop's next look starts a new send of it, whatever the callers do before |
| `DraftStream.RecoveredWasShed` | telegram-plugin/draft-stream.ts:266-285 | in every run, a snapshot `finalize` can recover was shed, with nothing landed or found unmodified since |
| `DraftStream.FinalizeDisarms` | telegram-plugin/draft-stream.ts:391-404 | `finalize` disarms the timer, and only a throttled follow-up chained before arms it again |
| `DraftStream.StaleShedWins` | telegram-plugin/draft-stream.ts:252-256 | a run in which the skip lets an older shed snapshot win |
| `DraftStream.DraftStreamHandle.BeginFlush` | telegram-plugin/draft-stream.ts:240-264 | the snapshot is taken; it is skipped when on screen, stops the stream when too long, else is sent |
| `DraftStream.DraftStreamHandle.EndFlush` | telegram-plugin/draft-stream.ts:266-299 | after the answer the variables are those of the step relation, which CallsAreDue, NotFoundIsResent and RecoveredWasShed pin answer by answer |
| `DraftStream.DraftStreamHandle.UpdateText` | telegram-plugin/draft-stream.ts:341-389 | an update starts a loop, arms the timer or chains a follow-up, exactly as the step relation says |
| `DraftStream.DraftStreamHandle.FinalizeText` | telegram-plugin/draft-stream.ts:391-418 | `finalize` up to its first await |
| `DraftStream.DraftStreamHandle.OnFollowUp` | telegram-plugin/draft-stream.ts:378-386 | a chained follow-up restarts the loop only if text is pending and no loop runs |
| `DraftStream.DraftStreamHandle.OnTimer` | telegram-plugin/draft-stream.ts:323-338 | a fired timer starts a loop unless one runs |
| `SupersedeDecision.Decide` | telegram-plugin/flushed-turn-supersede.ts:266-331 | a supersede is given exactly for a record inside its window, of the reply's own turn, whose text the reply repeats unless attribution is positive or no text is given; the ids are the record's then and none otherwise |
| `SupersedeDecision.DecidesExactly` | telegram-plugin/flushed-turn-supersede.ts:266-331 | flag, ids and reason for every record and reply: expired after the cap from the flush or the grace from its completion, another turn, new content, or superseded |
| `SupersedeDecision.SameAnswerExact` | telegram-plugin/flushed-turn-supersede.ts:222-231 | the content gate opens if and only if both texts have words and either these are the same, or one side's words, written with single spaces, are found in the other's and are at least 32 characters long |
| `SupersedeDecision.NormalizedIsJoined` | telegram-plugin/flushed-turn-supersede.ts:200-202 | normalizing a text writes its words, the maximal runs without white space, with one space between |
| `SupersedeDecision.EqualByWords` | telegram-plugin/flushed-turn-supersede.ts:200-202 | two normalized texts are equal if and only if the words are the same in the same order |
| `SupersedeDecision.WordsKeepCharacters` | telegram-plugin/flushed-turn-supersede.ts:200-202 | the words of a text are all its characters but white space, in order |
| `SupersedeDecision.SpacingIgnored` | telegram-plugin/flushed-turn-supersede.ts:200-230 | the content gate ignores spacing at either end and the length and kind of every run of white space inside, and treats the two texts alike |
| `SupersedeRegistry.LaneInjective` | telegram-plugin/flushed-turn-supersede.ts:548-550 | for chat ids without a bar, equal lane keys mean equal chat and thread |
| `SupersedeRegistry.RecordsStem` | telegram-plugin/flushed-turn-supersede.ts:427-518 | over any run, every record is the latest flush of its turn, with its completion, not displaced since |
| `SupersedeRegistry.TakeIsAttributed` | telegram-plugin/flushed-turn-supersede.ts:493-511 | a superseding take returns exactly the ids of the latest flush for that chat, thread and turn, inside its open or completed window |
| `SupersedeRegistry.TakeFindsFlush` | telegram-plugin/flushed-turn-supersede.ts:427-511 | conversely, a reply of the turn is decided on its latest flush, if nothing displaced it and no recording found it lapsed |
| `SupersedeRegistry.OwnReplySupersedes` | telegram-plugin/flushed-turn-supersede.ts:282-511 | on an ordered clock the turn's own reply supersedes a flush not displaced while it is open within the cap, or within the grace of a completion that came before the cap |
| `SupersedeRegistry.HandedOutOnce` | telegram-plugin/flushed-turn-supersede.ts:493-511 | no recorded flush is handed out twice |
| `SupersedeRegistry.OthersUndisturbed` | telegram-plugin/flushed-turn-supersede.ts:493-511 | a take changes neither flag nor ids of a decision on another chat, thread or turn |
| `SupersedeRegistry.SweepingUnobservable` | telegram-plugin/flushed-turn-supersede.ts:526-537 | over every run in time order without revival, the swept registry is the unswept one less lapsed records |
| `SupersedeRegistry.SweptDecisions` | telegram-plugin/flushed-turn-supersede.ts:282-292 | so both give the same supersede flag and ids |
| `SupersedeRegistry.RevivalIsVisible` | telegram-plugin/flushed-turn-supersede.ts:455-461 | after a completion signal the two agree on every later reply if and only if no swept record was still open |
| `SupersedeRegistry.RevivalRun` | telegram-plugin/flushed-turn-supersede.ts:427-461 | for all limits, a run after which the unswept registry hands out a flush past its cap and the swept one does not |
| `SupersedeRegistry.FlushedTurnSupersedeRegistry.RecordFlush` | telegram-plugin/flushed-turn-supersede.ts:427-448 | recording sweeps and then files the flush under its own turn, nothing for no messages |
| `SupersedeRegistry.FlushedTurnSupersedeRegistry.Sweep` | telegram-plugin/flushed-turn-supersede.ts:526-537 | exactly the lapsed records go, and emptied lanes with them |
| `SupersedeRegistry.FlushedTurnSupersedeRegistry.Complete` | telegram-plugin/flushed-turn-supersede.ts:455-461 | every open record is completed now, completed ones keep their time |
| `SupersedeRegistry.FlushedTurnSupersedeRegistry.TakeDecision` | telegram-plugin/flushed-turn-supersede.ts:493-511 | the decision is the peeked one, and only a supersede consumes |
| `FloodLedger.HistoryDisjoint` | telegram-plugin/flood-429-ledger.ts:159-202 | for observations in time order, episode windows stay disjoint and ordered, and every 429 is counted once |
| `FloodEpisodes.HistoryIsBlocks` | telegram-plugin/flood-429-ledger.ts:159-202 | the episodes are the observations in consecutive blocks: first and last time, number, largest whole-second penalty and latest end of each; an observation joins the block before it exactly when their times say it reports the same ban |
| `FloodEpisodes.DuringIsSameBlock` | telegram-plugin/flood-429-ledger.ts:159-166 | a 429 that falls in the time of another's ban lies in its block |
| `FloodLedger.LedgerIsTail` | telegram-plugin/flood-429-ledger.ts:174-215 | the pruned and capped list is always the newest part of the never-pruned one |
| `FloodLedger.VerdictMeans` | telegram-plugin/flood-429-ledger.ts:440-528 | an open ban outranks all and the one ending last is named; with none open there is a verdict exactly when a penalty or enough nudges are recent |
| `FloodEpisodes.VerdictOnObservations` | telegram-plugin/flood-429-ledger.ts:440-528 | over the observations: a ban is open exactly when a stated penalty is not over; else two penalty blocks of seven days are a repeat, a lone one is severe exactly when a 429 of ten minutes or more is in it, and without one 20 nudges of a day are pressure |
| `FloodEpisodes.SevereIsReported` | telegram-plugin/flood-429-ledger.ts:440-528 | a penalty of ten minutes or more of the last seven days, now over, is reported as severe if every other 429 above a minute came while it lasted, however it was counted down |
| `FloodLedger.VerdictExact` | telegram-plugin/flood-429-ledger.ts:440-528 | at any time from the last observation on, bounded and unbounded verdicts agree if and only if no counting episode was displaced |
| `FloodLedger.VerdictLost` | telegram-plugin/flood-429-ledger.ts:206-215 | after a ten-minute ban and 400 nudges the history says a severe penalty and the bounded ledger mere pressure |
| `FloodLedger.BoundedVerdictSame` | telegram-plugin/flood-429-ledger.ts:206-215 | they agree whenever at most 400 episodes fall in the last seven days |
| `MarkdownText.StripLeadingKeeps` | telegram-plugin/format.ts:1417-1425 | only padding is stripped in front and the rest is verbatim |
| `MarkdownText.StripTrailingKeeps` | telegram-plugin/format.ts:1417-1428 | only padding is stripped at the end and the rest is verbatim |
| `MarkdownText.OpensCleanMeans` | telegram-plugin/format.ts:1417-1425 | nothing is left to strip in front exactly when no first line is blank and ended by a newline |
| `MarkdownText.ClosesCleanMeans` | telegram-plugin/format.ts:1417-1428 | the same at the end |
| `MarkdownText.StripsBlankLines` | telegram-plugin/format.ts:1417-1428 | stripping takes whole blank lines and leaves none at that end |
| `MarkdownText.BlankMeans` | telegram-plugin/format.ts:1417-1428 | a blank line is spaces and tabs around at most one no-break space |
| `MarkdownCut.FenceCutExact` | telegram-plugin/format.ts:1435-1448 | the text before the fence back-off's cut holds an even number of fences if and only if the cut need not move, goes to 0, or an even number of fences follow the newline fence it goes to |
| `MarkdownCut.FenceCutIsOutside` | telegram-plugin/format.ts:1435-1448 | so it does whenever newlines are the only line breaks |
| `MarkdownCut.CarriageReturnOpens` | telegram-plugin/format.ts:1435-1448 | a text with a carriage return on which the back-off stops inside a fence |
| `MarkdownCut.TableCutIsOutside` | telegram-plugin/format.ts:1454-1465 | the table back-off's cut is at a line's edge or on a line without a bar |
| `MarkdownCut.InlineCutIsEarliest` | telegram-plugin/format.ts:1630-1649 | the inline back-off goes to the earliest start of a bisected span, and stays exactly when none is bisected |
| `MarkdownCut.BackedOffExact` | telegram-plugin/format.ts:1539-1545 | the back-offs follow each other: the fence one goes to the last newline fence when the count is odd, the table one to the end of the line before when a bar is on the line, the inline one to the earliest span bisected there |
| `MarkdownCut.BackOffOpenInline` | telegram-plugin/format.ts:1630-1649 | the loop over patterns, with its early break, computes that start |
| `MarkdownCut.SafeCutIsLastSafe` | telegram-plugin/format.ts:1539-1556 | the cut is the last place at or before the back-offs' that splits neither a surrogate pair nor a run of one delimiter |
| `MarkdownCut.SafeMarkdownCut` | telegram-plugin/format.ts:1539-1556 | the retreat loop computes that cut, for every position asked for |
| `MarkdownSplit.SlicesCover` | telegram-plugin/format.ts:1281-1289 | hard slices concatenate to the text, all are within the cap and all but the last fill it |
| `MarkdownSplit.HardSliceToCap` | telegram-plugin/format.ts:1281-1289 | the loop computes the slices, and returns the text whole for a cap of 0 or less |
| `MarkdownSplit.SplitFits` | telegram-plugin/format.ts:1349-1399 | for every text and limit of at least 1, every chunk fits |
| `MarkdownSplit.PreferredCutExact` | telegram-plugin/format.ts:1359-1375 | the preferred end is the last paragraph break if one is in the last two thirds of the window, else the last line break if one is, else the last space, else the limit |
| `MarkdownSplit.HeadEndsSafely` | telegram-plugin/format.ts:1376-1393 | a chunk ends at the safe cut, which splits no surrogate pair and no delimiter run, and only where that is 0 is it a hard slice |
| `MarkdownSplit.ChunksClean` | telegram-plugin/format.ts:1394-1428 | no chunk ends in a blank or spacer line, no continuation starts with one or is empty |
| `MarkdownSplit.SplitConserves` | telegram-plugin/format.ts:1349-1399 | for every limit, chunks stand in the text verbatim and in order with only padding around them, so the texts agree once padding is ignored; a text that fits is untouched |
| `MarkdownSplit.SplitMarkdownChunks` | telegram-plugin/format.ts:1349-1399 | the loop ends and computes those chunks, for every text and every limit |
| `MarkdownSplit.SplitPlainTextToCap` | telegram-plugin/format.ts:1308-1324 | the re-cap loop computes the non-empty pieces, or the text itself when there are none |
| `MarkdownSplit.PlainFitsExactly` | telegram-plugin/format.ts:1308-1324 | every piece fits if and only if the text fits or does not vanish at its first cut; nothing significant is lost |
| `MarkdownSplit.OnlyPaddingVanishes` | telegram-plugin/format.ts:1308-1324 | only a text of nothing but padding vanishes |
| `MarkdownSplit.NewlinesOverflow` | telegram-plugin/format.ts:1308-1324 | two newlines against a cap of 1 come back over the cap |
| `LineRuns.GroupedWellFormed` | telegram-plugin/format.ts:704-714 | grouping lines into runs loses none, and runs alternate |
| `LineRuns.GroupedFlat` | telegram-plugin/format.ts:704-714 | grouping undoes flattening |
| `LineRuns.Group` | telegram-plugin/format.ts:704-714 | the tokenizing loop computes the grouping |
| `ParagraphSpacers.SpacedTokens` | telegram-plugin/format.ts:644-742 | the output's runs are the input's with inner gaps made canonical |
| `ParagraphSpacers.EachRun` | telegram-plugin/format.ts:722-740 | content and outer gaps stay verbatim; a gap between two lines of the same list, table, quote, fence or divider kind becomes one blank line, any other gap between content one spacer paragraph |
| `ParagraphSpacers.BlankishMeans` | telegram-plugin/format.ts:665-668 | a line counts as blank exactly when it holds white space only but for at most one no-break space |
| `ParagraphSpacers.SpacedIsIdempotent` | telegram-plugin/format.ts:644-742 | a second application changes nothing |
| `ParagraphSpacers.ContentKept` | telegram-plugin/format.ts:722-740 | content lines keep their text and order |
| `ParagraphSpacers.Rebuild` | telegram-plugin/format.ts:722-740 | the rebuilding loop computes the canonical form |
| `ParagraphSpacers.AddParagraphSpacers` | telegram-plugin/format.ts:644-742 | the whole pass, with its early exit |
| `AnswerReady.StepKeepsInv` | telegram-plugin/answer-ready-flush.ts:226-298 | every event keeps one timer per turn, each founded on an arming still in force, and every delivery earned |
| `AnswerReady.DeliveredOnce` | telegram-plugin/answer-ready-flush.ts:226-298 | in every run no turn is delivered twice and none has two timers pending |
| `AnswerReady.DeliveryIsStaged` | telegram-plugin/answer-ready-flush.ts:253-298 | with staging on, a delivery follows arming, a full debounce and a full stage window, the arm predicate true at all three, and nothing resetting, clearing or ending the turn between |
| `AnswerReady.QuietTurnDelivers` | telegram-plugin/answer-ready-flush.ts:242-298 | from any point of any run, arming a turn with an answer and nothing at work and letting both windows pass delivers it and ends it |
| `AnswerReady.StagingEnds` | telegram-plugin/answer-ready-flush.ts:253-298 | in every run only turns with a timer handle are staged, so an expiry that does not pass unstages |
| `AnswerReady.Controller.ResetTimer` | telegram-plugin/answer-ready-flush.ts:242-250 | a reset disarms and, if the predicate holds, arms the full debounce |
| `AnswerReady.Controller.ClearTimer` | telegram-plugin/answer-ready-flush.ts:226-234 | a clear drops timer and staging of that turn only |
| `AnswerReady.Controller.OnExpiry` | telegram-plugin/answer-ready-flush.ts:256-298 | an expiry is ignored after a rollover, else discards, stages or delivers |
| `FloodWindows.ExpiryNeverEarlier` | telegram-plugin/flood-circuit-breaker.ts:521-565 | while a scope's window is open, no write, mark, failed write or restart moves its expiry earlier or forgets it |
| `FloodWindows.WriteOpens` | telegram-plugin/flood-circuit-breaker.ts:521-565 | in every run a persisted write opens its window for every later look before the written expiry |
| `FloodWindows.NoWindowInvented` | telegram-plugin/flood-circuit-breaker.ts:460-565 | in every run an open expiry a look finds was written, was in the file, or is that of the fail-safe window |
| `FloodWindows.UntrustedSuppresses` | telegram-plugin/flood-circuit-breaker.ts:460-482 | a file that cannot be trusted reads as one unanchored global window, five minutes long |
| `FloodWindows.AnchorExact` | telegram-plugin/flood-circuit-breaker.ts:521-585 | while a window stays open its anchor is set if and only if it was before or a step since put it in the file |
| `FloodWindows.AlertsAgainExactly` | telegram-plugin/send-gate-observability.ts:354-375 | after a look that alerts, and while the window stays open, a later look alerts again if and only if it is due (scope alertable, above the alert threshold, operator reachable) and no anchor reached the file in between |
| `FloodWindows.OverlapExactly` | telegram-plugin/send-gate-observability.ts:363-372 | with one persisted mark, a second look that is due alerts again if and only if it falls between the first look and that mark |
| `FloodWindows.AtMostOneAlert` | telegram-plugin/send-gate-observability.ts:354-375 | two alerts for a scope come from two looks, between which the window was found closed or no anchor reached the file |
| `FloodWindows.OverlappingTicksAlertTwice` | telegram-plugin/send-gate-observability.ts:363-372 | two overlapping ticks alert twice on any open window, both marks persisted |
| `FloodWindows.LostAnchorRepeats` | telegram-plugin/send-gate-observability.ts:363-372 | an alert whose mark fails, or that a restart cuts off, repeats |
| `FloodWindows.FloodWindowStore.WriteFloodWindow` | telegram-plugin/flood-circuit-breaker.ts:521-565 | a write prunes, keeps the later expiry and the prior anchor, and changes nothing when it fails |
| `FloodWindows.FloodWindowStore.MarkFloodWindowAlerted` | telegram-plugin/flood-circuit-breaker.ts:576-585 | a mark sets the anchor of an open window only |
| `FloodWindows.FloodWindowStore.LookAt` | telegram-plugin/send-gate-observability.ts:354-366 | the observer, up to its await, sends exactly when the look is due and the window open and unanchored |
| `FloodWindows.FloodWindowStore.ResumeAfterSend` | telegram-plugin/send-gate-observability.ts:369-375 | after the send it marks that window, if still open |
| `ChatLock.StepKeepsInv` | telegram-plugin/chat-lock.ts:63-88 | every call, start, settlement and cleanup keeps order, links and map exact |
| `ChatLock.LaneIsFifo` | telegram-plugin/chat-lock.ts:63-72 | on one lane a task leaves the queue only when every earlier one is settled and cleaned up |
| `ChatLock.MapIsExact` | telegram-plugin/chat-lock.ts:70-87 | a lane is absent exactly when nothing on it is unsettled; the map is empty exactly when all work is done |
| `ChatLock.LaneNeverStalls` | telegram-plugin/chat-lock.ts:63-72 | a lane's first unfinished task can always take its next step |
| `ChatLock.FailureIsolation` | telegram-plugin/chat-lock.ts:64-72 | with any outcomes replaced by any others the same run is possible and leaves every lane alike |
| `ChatLock.ResultIsOwn` | telegram-plugin/chat-lock.ts:67-88 | a task's result is what its own work came to |
| `ChatLock.RootLaneShared` | telegram-plugin/chat-lock.ts:122-138 | thread ids 1, 0 and none share the chat's root lane, other lanes are distinct, and id 1 is stripped |
| `ChatLock.Lock.Run` | telegram-plugin/chat-lock.ts:63-88 | a call is queued behind the promise in the map and becomes the lane's tail |
| `ChatLock.Lock.Finally` | telegram-plugin/chat-lock.ts:70-72 | cleanup removes the map entry only when it is still this task's |
| `ChatLock.Lock.Send` | telegram-plugin/chat-lock.ts:91-143 | a wrapped API call runs on its chosen lane with the General topic's id stripped |

## Left out

- Fuse arithmetic: tighten factors are reals without floating-point rounding, and times and counts are unbounded integers.
- Fuse window keys are a datatype in place of strings such as `m:chat:msg`; the persisted-probe cache, counters, `onTrip` and the `enabled` switch are not modelled, and the throttle notice appears only as a cap on sleeps.
- FuseMachine.EditFloodFuse.Evict: does not model the stale window object of a caller that is mid-wait on an evicted key.
- FuseBursts.NoBurstSwallowed: says nothing about cosmetic bursts, which the spent late-release budget may drop entirely (FuseBursts.LastHopeLeaves is that exception), nor about a clock that moves while a microtask is queued.
- FuseBurstLimit.BurstGuardExact: leaves out a chat window of width 0, which never fills.
- FusePoolLimit.PoolBoundExact: leaves out a chat window of width 0 and fair share off, where the pool's lanes are never used, and in its only-if half configurations in which no cosmetic edit passes its message tier at level 0.
- Admission order across frames: a newer frame that finds room does not kill an older waiting one, so order of arrival is not claimed.
- Draft stream: the pre-send idle debounce (`idleMs` above 0), the promises `update` returns, timing of the throttle (an input of each step) and the trace lines; final text is not claimed after a call that failed for another reason or a text over the limit.
- Supersede: `FlushCompletionTracker`, `decideSupersedeCorrection`, `clear` and `size`, which would only add easy members.
- 429 ledger: file reads and writes, parsing of stored entries and the wording of verdicts.
- Markdown: which inline spans the patterns recognise is a parameter (any recogniser whose matches come left to right), as is the block kind of a line for the spacers; code masking and `truncateMarkdownSafe` are not modelled.
- Back-offs composed: the fence, table and inline guarantees are stated for each pass, because a later pass can undo an earlier one.
- Answer-ready: the turn-flush classifier is an input, env resolution is left out, and delivery is taken to retire the turn as the gateway does.
- Flood windows: the file is a map by scope or untrusted as a whole; file modes, the bot-wide marker and `computeFloodWait` are left out; the observer is reduced to its looks at open windows, whether a look is due (alertable scope, alert threshold, operator reachable) is an input, close alerts are left out, and no other process writes the file at the same time.
- Chat lock: promises are numbered tasks, and lane keys a datatype in place of strings.
- `history.ts`, `answer-stream.ts`, the installers, environment parsing, renderers and telemetry.
