# A verified model of the fwdsvc relay

`fwdsvc` is a group-chat relay: members send it messages, it sends every other member a
copy. This project models the state machinery that decides who gets each copy, when, how
often and under which message id, and proves what that machinery guarantees over every
run. `dafny verify dfyconfig.toml` checks everything.

The model has four linked parts.

* **Outbound queue.** `Outbound` gives the transitions of the lock-protected state,
  `OutboundQueue` is the class with its loops and in-place updates, and `Scheduler*`
  interleaves any number of workers (which release the lock across a send), one flusher, a
  clock, a disk that may fail, and crashes.
* **Ids and annotations.** `IdMap`, `IdCache` and `IdMapRuns` are the LRU + TTL cache from any
  member's message id to the relayed bubble; `Rewrite`, `RewriteHeap` and `Planning` turn one
  member's reaction, comment, continuation or reply into every other member's; `RoundTrip` and
  `RoundTripFields` say that the meaning survives. `Attachments`, `Fanout`, `Letters`, `Inbound`, `GroupChat`
  and `Inbox` are the path of an inbound message from the field policy to the queue. `Relay` and `RelayRuns` run fan-outs,
  workers and the cache together.
* **Roster and authority.** `Members` and `Roster` are the state and the class, `Authority` and
  `Commands` the commands as functions and as handlers, `AuthorityEffects` what each does,
  `AuthorityRuns` and `Activity` what holds over every run of commands, chat, announces, sweeps and restarts.
* **Small parts.** `Dedup` and `Propagation` are two bounded tables measured against an
  unbounded history; `Nickname` and `FitList` are two loops over text.

Where the source changes state in place the model does too, and each such method is proved
equal to a function or related by a predicate; the theorems are about those.

## Assumptions

* Queue message ids are unique (they are random). The source says that a collision would be
  harmless because messages are never looked up by id. The in-flight marks are keyed by id
  all the same, so a collision would keep the second message waiting while the first is sent.
  Where a statement follows a message across restarts, its id is unique over the run.
* Message ids of LXMF messages do not collide where a statement says so (`clash` is false);
  without that, a later registration takes the id over, and `LookupAgrees` says what still holds.
* The clock does not run backwards, integers stay in range, and there is one flusher.
* A field map has at most one key per integer value (`Canonical`), in the outer and in the
  inner maps. A map with both `int8(64)` and `"64"` is legal in Go, and then iteration order decides.
* The configuration has been accepted: listed hashes are 32 lower-case hex digits
  (`AcceptedIsHash` says why) and the attribution fields are not forwarded (`CheckForwarded`).

## Where the source and its comments disagree

* "persists immediately" (`internal/service/outbound.go:329`): the write is coalesced. Every crash
  right after an acceptance loses the message (`AcceptedIsUnsaved`); `CrashKeepsExactly` and
  `ComesBackExactly` say which messages a crash keeps, `FileIsCurrent` and `DirtyHasCause` what holds instead.
* "retry on the next tick" (`internal/service/outbound.go:769`): a failed save schedules nothing.
  `UnscheduledExactly` and `StalledExactly` say when and for how long, `FailedSaveIsNotRetried`
  builds a run.
* "a restart mid-replay keeps the hold" (`internal/service/outbound.go:138`) is true of the messages the
  file holds (`PinsAfterReplay`). What does not survive a crash is that sending had begun: a file
  that has not caught up sends a replay message again after the pins (`StaleFileReplays`, and
  `ReplayComesBackExactly` for when).
* "Sequential by design" (`internal/service/service.go:418`): workers are concurrent, and the model has any number.
* Start-up enrolment ignores the banlist and the member cap. A banned hash becomes a member by a
  restart that lists it and in no other way (`BothByRestart`, `BannedAdminReturns`); the cap is
  passed by a restart without room for everybody it lists and in no other way (`CapExactly`,
  `RestartOverfills`).
* Truncated list replies can exceed the budget: exactly when the header with the full count
  does (`FitsExactly`, `OverrunExample`). The service as shipped sets the budget to zero
  (`internal/service/service.go:315`), which turns truncation off.

## Model

The results over whole runs come first, then the members they rest on.

| member | source | states |
|---|---|---|
| `SchedulerRuns.QueueSafety` | internal/service/outbound.go:361-701 | in every interleaving no two workers hold one message, the in-flight marks are exactly what workers hold and all of it is queued, pending stays in enqueue order, an accepted message is queued or has exactly one fate |
| `SchedulerHold.PinsAfterReplay` | internal/service/replay.go:96-117 | at any later moment, in this process or one that loaded the file, whenever the join pins are in a worker's hands or this process has begun to send them, no replay message of that catch-up is queued or being sent |
| `SchedulerHold.HeldBackInEveryWorld` | internal/service/outbound.go:501-543 | in every reachable world, loaded messages included, nothing logged earlier for the same recipient is queued while a held-back message is in flight or once this process has begun to send it |
| `SchedulerHold.StaleFileReplays` | internal/service/outbound.go:278-309 | "ever begun" does not survive a crash: a run in which a file that has not caught up brings a delivered replay message back after the pins have begun; the exact condition is the next row |
| `SchedulerHold.ReplayComesBackExactly` | internal/service/outbound.go:278-309 | with the pins begun, the replay messages are out of the queue, and a crash queues one again if and only if the process loaded it and has saved nothing, or the last landed save held it |
| `SchedulerWait.HoldIsBounded` | internal/service/outbound.go:134-137 | as long as a due, flagged message that nobody holds cannot be picked, the messages ahead of it have had fewer settled sends than twice the attempt budget for each |
| `SchedulerWait.AgeEndsTheHold` | internal/service/outbound.go:477-510 | whatever the sends do, the first pick past the age limit of the messages ahead clears the way |
| `SchedulerRuns.SendsBounded` | internal/service/outbound.go:549-651 | within one process a message has at most twice the attempt budget of settled sends |
| `SchedulerRuns.FailureProgress` | internal/service/outbound.go:609-650 | a failed send that is no deferral removes the message or strictly decreases (direct, attempts left) lexicographically |
| `SchedulerSettle.LeavesExactly` | internal/service/outbound.go:576-634 | in every run a settled message leaves the queue if and only if its send succeeded, was refused for its stamp, or failed with the budget and the routes spent, under exactly that fate |
| `SchedulerSettle.StaysExactly` | internal/service/outbound.go:589-650 | in every run a settled message that stays changes in route, attempts and next attempt only: a deferral hands the attempt back, a re-route (after the direct budget, which `direct_attempts` shortens) starts afresh, and the wait is the one the outcome calls for |
| `SchedulerSettle.TakenIsDue` | internal/service/outbound.go:477-529 | whatever a worker takes was queued, in nobody's hands, due, and within the age limit |
| `SchedulerSettle.NotBeforeItsTime` | internal/service/outbound.go:505-507 | a message left waiting by a settlement is not taken again before its wait is over |
| `SchedulerRuns.GiveUpOnlyWhenSpent` | internal/service/outbound.go:621-634 | a message is budget-failed only after the full budget and with no usable fallback at that moment |
| `SchedulerRuns.DeferralIsFree` | internal/service/outbound.go:589-595 | whatever happened between start and settlement, a deferral leaves exactly the attempts there were before |
| `SchedulerRuns.RouteSticks` | internal/service/outbound.go:621-630 | a message that has been re-routed to propagation stays there while the process lives |
| `SchedulerRuns.FileIsCurrent` | internal/service/outbound.go:708-772 | when nothing is dirty and no save runs, loading the file rebuilds what loading the queue itself would keep: same order, ids, recipients, texts, waits, ages, routes and flags, and attempts except of messages being sent |
| `SchedulerRuns.DirtyHasCause` | internal/service/outbound.go:708-772 | an unwritten change implies a pending kick, a flusher between kick and snapshot, or a failed save since |
| `SchedulerStall.UnscheduledExactly` | internal/service/outbound.go:746-772 | with no kick pending and none being acted on, there is an unwritten change if and only if a save has failed since the last snapshot |
| `SchedulerStall.StalledExactly` | internal/service/outbound.go:719-772 | an unwritten change with nothing scheduled stays so, and the file stays as it was, exactly until the first step that marks a change, shuts down or restarts |
| `SchedulerRuns.FailedSaveIsNotRetried` | internal/service/outbound.go:766-771 | a run that reaches such a stall |
| `SchedulerStall.AcceptedIsUnsaved` | internal/service/outbound.go:329-391 | whatever the message and the run, a crash right after an acceptance loses the message |
| `SchedulerStall.CrashKeepsExactly` | internal/service/outbound.go:708-772 | for a message the crashing process accepted: it is kept if and only if its recipient is an address and the last save that landed was of a snapshot, taken after the acceptance, that holds it |
| `SchedulerStall.ComesBackExactly` | internal/service/outbound.go:278-309 | which messages of a process a crash brings back, loaded or accepted: while nothing has been saved those it loaded, after that those with a real address in the snapshot of the last landed save |
| `Outbound.BestIsBest` | internal/service/outbound.go:497-524 | a message is chosen if and only if it is eligible, heard no earlier than any eligible one (known before unknown), and strictly later than every eligible one enqueued before it; nothing is chosen only when nothing is eligible |
| `Outbound.EligibleExactly` | internal/service/outbound.go:501-510 | who may be picked: in nobody's hands, next attempt due, and, if flagged, nothing enqueued earlier for the recipient |
| `Outbound.ReapExactly` | internal/service/outbound.go:477-495 | what survives is exactly what a worker holds or has been queued for no more than a day |
| `Outbound.NeverWedges` | internal/service/outbound.go:472-543 | with nothing in flight and every wait over, a pick yields a message exactly when the reap leaves any |
| `SchedulerRuns.IdleWorkersFindWork` | internal/service/outbound.go:472-529 | the queue does not wedge in any reachable state |
| `IdMapRuns.CacheSafety` | internal/idmap/idmap.go:117-211 | at every moment of every run the index fits, the list is in last-touch order, every indexed id is a view of a listed bubble |
| `IdMapRuns.LookupAgrees` | internal/idmap/idmap.go:142-158 | a lookup never returns an expired or differently registered bubble; without id collisions it hits exactly when the bubble is unexpired, still listed, and the id was registered since the bubble joined the list |
| `IdMapRuns.ForgottenExactly` | internal/idmap/idmap.go:117-198 | without id collisions, exactly when a step makes the cache forget a listed bubble: it and everything touched no later expired, too many ids on bubbles touched no earlier, or a lookup after its expiry |
| `IdMapRuns.ForgottenOnlyWhen` | internal/idmap/idmap.go:175-198 | in every run a bubble leaves the list only because it has expired, or because a registration leaves more ids than the cap allows on bubbles touched no earlier |
| `IdMap.CapDropsShortestTail` | internal/idmap/idmap.go:188-198 | the cap drops the shortest least-recently-touched tail that makes the index fit |
| `IdMap.SecondRegistrationStrands` | internal/idmap/idmap.go:117-137 | registering a pair again, bubble unexpired and id its own, leaves the first key a view of nothing |
| `IdMap.StrandedForGood` | internal/idmap/idmap.go:117-211 | a stranded key survives every later sequence of registrations, lookups, sweeps and evictions, short of registering that very id |
| `RelayRuns.ViewsExactly` | internal/service/inbox.go:229-246 | at every moment a member's view is the inbound id for the sender, the id of the one successful send for a recipient, and nothing otherwise |
| `RelayRuns.NeverTwice` | internal/service/outbound.go:549-583 | within one process no pair is registered twice despite retries, re-routing and concurrent workers |
| `RelayRuns.FirstTime` | internal/service/outbound.go:564-574 | in every run, whenever the relay registers a view the pair has none yet, and has one from then on |
| `RelayRuns.CacheUsedProperly` | internal/idmap/idmap.go:117-137 | the relay's cache is at every moment the outcome of a cache run that meets the cache's demand |
| `RelayRuns.TwoMoments` | internal/idmap/idmap.go:117-158 | any two moments of one process are two moments of one such cache run |
| `RelayRuns.RelayRoundTrip` | internal/service/rewrite.go:164-313 | the round trip of whole messages in the relay itself, between any two moments of a process |
| `RoundTripFields.MessageReturns` | internal/service/rewrite.go:164-313 | in every run, whatever the carriers, every annotation of A's whose view at B still resolves comes back as the id A used, the reply too, and every field neither rewriting resolved is what it was |
| `RoundTripFields.FieldReturns` | internal/service/rewrite.go:164-313 | one field on its own: if B's view is still indexed and unexpired it comes back as the id A used, differing in the carrier at most, whatever the other fields do |
| `RoundTrip.ThereAndBack` | internal/service/rewrite.go:164-313 | in every run, once all of A's annotations still resolve, B's copy rewritten for A is what A's own message rewritten then would be, each field bound to its old bubble; if nothing further resolves it is what it would have been in the first place |
| `RoundTrip.OwnRewriteIsIdentity` | internal/service/rewrite.go:215-240 | rewriting A's annotations for A changes nothing once they are carried as bytes |
| `Rewrite.OrderIrrelevant` | internal/service/rewrite.go:215-240 | the closure's outcome does not depend on the order in which it walks its plan |
| `RewriteHeap.RewriteFor` | internal/service/rewrite.go:215-240 | one recipient's copy is a function of the input and that recipient; it may write nothing that existed before |
| `Planning.BuildRewrite` | internal/service/rewrite.go:164-213 | the scan finds the same plan in whatever order it meets the keys, although each lookup touches the cache |
| `GroupChat.ExactlyTheseLetters` | internal/service/inbox.go:176-273 | one letter for each active member owed one, none for anybody else, each carrying what it should and every attribution honest |
| `Letters.LetterCarries` | internal/service/forward.go:60-74 | what is in a letter: the body for everybody, no fields for text-only members, for the others the job's fields or this member's copy of them |
| `Letters.RewriteCopies` | internal/service/rewrite.go:215-240 | this member's copy, entry by entry: planned dictionaries point at the member's own view and are otherwise the sender's, the planned reply is the member's view or gone, everything else is unchanged |
| `GroupChat.ChatToGroup` | internal/service/inbox.go:176-273 | roster, inbound path and fan-out together: the surviving fields stamped, a plan for exactly what resolves, the bubble with its sender's own view and no other, and exactly the letters owed with exactly their contents |
| `Planning.PlannedExactly` | internal/service/rewrite.go:179-194 | exactly the reactions, comments and continuations whose target hash resolves are planned, each for its bubble |
| `Planning.PlannedReplyExactly` | internal/service/rewrite.go:195-206 | the reply is planned exactly for the bubble its hash resolves to |
| `Inbox.OnReceived` | internal/service/inbox.go:18-287 | all of it: a duplicate changes nothing but the table, a ban, a command, an over-limit, foreign or paused message only the roster, and a chat message goes out as exactly those letters |
| `Inbound.LettersHonest` | internal/service/inbox.go:176-273 | whatever the sender put in, every letter carries attribution if and only if it carries a reaction, and then the sender's own source hash |
| `AuthorityRuns.MemberByRight` | internal/commands/handlers.go:697-743 | in every run each member was there at the start or entered by right and has stayed since |
| `AuthorityRuns.PowerHasGrantor` | internal/commands/handlers.go:637-689 | in every run each runtime role was held from the start or granted by somebody effectively admin at that moment, and held ever since |
| `AuthorityRuns.NoSelfDemotion` | internal/commands/handlers.go:656-661 | `/usermode` never leaves its own caller without admin powers |
| `AuthorityEffects.UserModeDoes` | internal/commands/handlers.go:637-668 | `/usermode` from an effective admin with "admin", "mod" or "user" in any case gives the member named exactly that role and changes nothing else, self-demotion apart |
| `AuthorityEffects.UserModeElse` | internal/commands/handlers.go:637-653 | any other word, number of arguments, caller or name changes no role |
| `AuthorityEffects.EffectiveExactly` | internal/commands/handlers.go:190-249 | who is effectively admin, and who at least mod, in terms of the lists and the member's own role |
| `AuthorityEffects.JoinExactly` | internal/commands/handlers.go:414-460 | `/join` makes a plain member with the announced name exactly when the group is open or lists the sender and there is room |
| `AuthorityEffects.AddUserExactly` | internal/commands/handlers.go:697-743 | `/adduser` makes an invited member exactly when the caller is at least mod, the address is neither a member's nor banned, and there is room |
| `AuthorityEffects.RemoveDoes` | internal/commands/handlers.go:750-801 | `/removeuser` and `/kick` take exactly the member named off the roster |
| `AuthorityEffects.BanDoes` | internal/commands/handlers.go:803-822 | `/ban` takes exactly the member named off the roster and onto the banlist |
| `AuthorityEffects.UnbanDoes` | internal/commands/handlers.go:824-842 | `/unban` with a banned hash lifts exactly that ban |
| `AuthorityEffects.PowerlessDoNothing` | internal/commands/handlers.go:637-864 | none of these does anything for a caller who is less than a mod |
| `AuthorityEffects.OwnCommandsDo` | internal/commands/handlers.go:462-529 | `/leave`, `/pause`, `/resume`, `/textonly` and `/showall` from a member: the whole new state |
| `AuthorityEffects.NickDoes` | internal/commands/handlers.go:584-629 | `/nick` renames the caller, or at a mod's hand the member named, exactly when the name matches the pattern |
| `AuthorityEffects.ChatDoes` | internal/service/inbox.go:98-158 | chat from an active member counts as presence and speech, over the limit or paused as presence only, from others as nothing |
| `AuthorityEffects.BannedDoNothing` | internal/service/inbox.go:43-48 | a banned sender changes nothing, whatever it sends |
| `AuthorityEffects.AnnounceDoes` | internal/service/service.go:716-762 | an announce moves the member's clock to its emission, or to now if undated or from the future, and a replay moves nothing; a member without a nickname takes the announced one |
| `AuthorityRuns.BannedStayOut` | internal/commands/handlers.go:803-822 | a hash outside every configuration of the run is never both banned and a member |
| `AuthorityRuns.BothByRestart` | internal/service/service.go:512-528 | a step makes a banned hash a member if and only if it is a restart that lists it |
| `AuthorityRuns.BannedAdminReturns` | internal/service/service.go:512-528 | a banned config admin is a member again after a restart |
| `AuthorityRuns.CapExactly` | internal/service/service.go:512-528 | over a whole run the cap holds throughout if and only if it holds at the start and every restart finds that room |
| `AuthorityRuns.RestartCapExactly` | internal/service/service.go:512-528 | a restart ends within the cap if and only if there is room for everybody listed beside the members there are |
| `AuthorityRuns.RestartOverfills` | internal/service/service.go:512-528 | a run in which a restart passes the cap |
| `AuthorityRuns.FullHashResolves` | internal/roster/roster.go:488-524 | in every reachable roster a full-length query naming a member resolves to exactly that member |
| `AuthorityEffects.NickResolves` | internal/roster/roster.go:496-507 | a nickname names its member exactly when nobody else has it, ignoring case |
| `AuthorityEffects.PrefixResolves` | internal/roster/roster.go:509-522 | at least four hex digits that are nobody's nickname name a member exactly when they begin nobody else's hash |
| `AuthorityRuns.AlwaysTidy` | internal/commands/handlers.go:531-629 | in every reachable roster each nickname is empty or 1 to 24 characters of the alphabet |
| `Activity.RecordsSummarise` | internal/roster/roster.go:140-275 | in every run the record summarises the history since entering: latest presence, latest speech, and not heard from yet |
| `Activity.SweepExactly` | internal/roster/roster.go:294-318 | a sweep removes exactly the members heard from whose whole history is older than the idle window or whose speech is older than the silent one |
| `Dedup.SeenExactly` | internal/service/dedup.go:39-53 | in every run "seen" is answered if and only if the key was accepted less than a ttl ago with no over-cap clear since |
| `Dedup.AcceptancesApart` | internal/service/dedup.go:39-69 | two acceptances of one key are at least a ttl apart unless a clear came between |
| `Dedup.WipedExactly` | internal/service/dedup.go:49-69 | the table is cleared wholesale exactly when more distinct keys than it may hold were accepted within the last ttl |
| `Propagation.SeniorityLost` | internal/service/propagation.go:90-181 | a node is forgotten only after more than thirty minutes of silence or once 256 other distinct nodes announced no earlier than it last did, and keeps its first-heard instant until then |
| `Propagation.SeniorityKept` | internal/service/propagation.go:90-181 | from one moment of a run to a later one a node that stays present is as senior as it was |
| `Propagation.Tracker.Current` | internal/service/propagation.go:185-216 | the pin, or a usable fresh node that no usable fresh node was first heard before, or nothing when there is none |
| `FitList.FitList` | internal/commands/handlers.go:364-412 | everything if it fits, otherwise the longest whole-line prefix whose footer counts the rest and which fits |
| `FitList.FitsExactly` | internal/commands/handlers.go:364-412 | a truncated reply overruns the budget exactly when the header with the full count does |
| `FitList.OverrunExample` | internal/commands/handlers.go:364-412 | a reply of 36 bytes to a budget of 30 |
| `Nickname.SanitizeIdempotent` | internal/commands/handlers.go:544-582 | sanitizing twice is sanitizing once |
| `Nickname.SanitizeFixes` | internal/commands/handlers.go:544-582 | exactly the clean strings are left alone |
| `Outbound.BackoffGrows` | internal/service/outbound.go:653-668 | waits start at the configured one, never shrink with the attempts and never exceed a minute |
| `Outbound.BackoffDoubles` | internal/service/outbound.go:653-668 | each completed attempt doubles the wait, up to a minute |
| `Outbound.SnapshotSaves` | internal/service/outbound.go:100-111 | a file entry is the queued message, all of it but attachment and bubble |
| `Scheduler.ConstructedIsNew` | internal/service/outbound.go:361-371 | the message an enqueue builds is new and keeps recipient, body, fields, bubble and flag |
| `SchedulerStall.LoadKeepsExactly` | internal/service/outbound.go:278-309 | loading keeps exactly the entries with a 16-byte recipient, in order and entire, back on the direct route when propagation is off |
| `OutboundQueue.OutboundQueue.Enqueue` | internal/service/outbound.go:361-391 | at the cap the newest message is refused and counted; otherwise it is appended last with everything it was given, no attempts, due at once, routed by the policy, and marked for saving |
| `OutboundQueue.OutboundQueue.RemoveLocked` | internal/service/outbound.go:670-677 | exactly that message leaves, the order of the rest is kept |
| `OutboundQueue.OutboundQueue.ReapExpired` | internal/service/outbound.go:477-495 | the two loops together are the specified reap |
| `OutboundQueue.OutboundQueue.PickDue` | internal/service/outbound.go:472-529 | reap, choose, mark in flight, against the specification of the choice |
| `OutboundQueue.OutboundQueue.BackoffWait` | internal/service/outbound.go:659-668 | the doubling loop gives the wait doubled per completed attempt, capped at one minute |
| `OutboundQueue.OutboundQueue.BeginAttempt` | internal/service/outbound.go:549-554 | the first critical section of a send counts the attempt and changes nothing else |
| `OutboundQueue.OutboundQueue.FinishAttempt` | internal/service/outbound.go:576-651 | the in-place settlement is the specified one, for every outcome (what that does: `LeavesExactly`, `StaysExactly`) |
| `OutboundQueue.OutboundQueue.TakeSnapshot` | internal/service/outbound.go:750-764 | a flush copies every queued message, all of it but attachment and bubble, and clears the mark, or does nothing when clean |
| `OutboundQueue.OutboundQueue.LoadFile` | internal/service/outbound.go:278-309 | malformed entries are dropped, propagated ones demoted when propagation is off, order kept |
| `SchedulerRuns.PinsWithinProcess` | internal/service/outbound.go:501-543 | the same for two acceptances of one process, with ids unique in that process only |
| `SchedulerWait.HeldExactly` | internal/service/outbound.go:501-543 | a due flagged message that nobody holds can be picked if and only if nothing ahead of it for its recipient is queued |
| `Hex.DecodeEncode` | internal/service/rewrite.go:364-367 | a registered id decodes to the raw hash it encodes |
| `Fields.CarriersAgree` | internal/service/rewrite.go:299-313 | bytes, raw text and 64 hex digits all read back as the same hash |
| `KeyNumbers.NumberReads` | internal/service/attachments.go:104-134 | a field number reads as itself in every integer width and as decimal text |
| `KeyNumbers.LargeWraps` | internal/service/attachments.go:116-125 | the upper half of the unsigned range wraps to negative numbers |
| `KeyNumbers.OthersAreNone` | internal/service/attachments.go:126-133 | text with anything but digits after a sign is no number, nor is another type |
| `IdMap.RegisterValid` | internal/idmap/idmap.go:117-137 | a pair's first registration keeps every indexed id a view of a listed bubble, and the index within its cap |
| `IdMap.ReRegisterStrands` | internal/idmap/idmap.go:126-127 | a pair recorded again under another id breaks the structure: the first key outlives the removal of its bubble |
| `IdMap.EvictDropsExpiredTail` | internal/idmap/idmap.go:175-184 | the expiry sweep drops a tail of expired bubbles and stops at the first survivor |
| `IdMap.NewestSurvives` | internal/idmap/idmap.go:188-198 | the cap never takes the id just recorded, if it is its bubble's only view and nobody else's |
| `IdCache.IdCache.RegisterView` | internal/idmap/idmap.go:117-137 | the in-place registration of any pair is the specified transition; a first one keeps the structure and the cap |
| `IdCache.IdCache.Lookup` | internal/idmap/idmap.go:142-158 | the in-place lookup touches, or removes an expired bubble, as specified |
| `IdCache.IdCache.RemoveBubble` | internal/idmap/idmap.go:203-211 | every view of the bubble leaves the index, the bubble leaves the list, nothing else changes |
| `IdCache.IdCache.EvictExpired` | internal/idmap/idmap.go:175-184 | the loop from the old end of the list is the specified sweep |
| `IdCache.IdCache.EnforceCap` | internal/idmap/idmap.go:188-198 | the loop is the specified eviction |
| `Rewrite.ApplyAllMeaning` | internal/service/rewrite.go:215-226 | substituting field by field is the same as retargeting every resolved field at once, and fails exactly when a view is missing |
| `RewriteHeap.CloneFields` | internal/service/rewrite.go:258-264 | a fresh outer map over the same inner maps |
| `RewriteHeap.SubstituteDictTarget` | internal/service/rewrite.go:338-377 | only the target of that field changes, in a rebuilt inner map; the shared inner map is not written |
| `RewriteHeap.RebindReply` | internal/service/rewrite.go:382-418 | the reply hash becomes the recipient's view, or is stripped when there is none |
| `Planning.ExtractDictTarget` | internal/service/rewrite.go:275-289 | the hex of the hash the inner target key carries, or nothing |
| `Planning.LookupKeepsHits` | internal/idmap/idmap.go:142-158 | at one instant a lookup changes no other lookup's answer |
| `RoundTrip.SameBubbleLater` | internal/idmap/idmap.go:117-158 | an id that resolves names its owner for good; another member's view, if it resolves later, resolves to the same bubble |
| `RoundTrip.TargetBecomesTheirs` | internal/service/rewrite.go:338-377 | whatever the carrier, the recipient's copy of a dictionary annotation points at the recipient's own view of the resolved bubble and differs in nothing else |
| `RoundTrip.RewriteAbsorbs` | internal/service/rewrite.go:215-240 | rewriting a rewritten map gives what rewriting the original would |
| `RoundTrip.OthersUntouched` | internal/service/rewrite.go:161-163 | unresolved annotations and all other fields pass through unchanged |
| `RoundTrip.SkippedExactly` | internal/service/rewrite.go:154-159 | a recipient is skipped if and only if it lacks a view of some resolved reaction, comment or continuation target |
| `RoundTripFields.ReplyFieldReturns` | internal/service/rewrite.go:382-403 | the same for the reply |
| `RoundTripFields.ReplyBecomesTheirs` | internal/service/rewrite.go:382-418 | a resolved reply points at the recipient's own view, or is stripped when there is none |
| `RoundTripFields.OwnerNeverSkipped` | internal/service/rewrite.go:215-240 | a member is never skipped for its own annotations |
| `Attachments.CheckForwarded` | internal/config/config.go:529-542 | a list is accepted exactly when it holds no negative key and neither attribution key, and the first offender is reported |
| `Attachments.FilterAttachments` | internal/service/attachments.go:34-81 | exactly the allowed, encodable, small enough fields survive, nil when none does; each oversized one and each refused attachment is named once, whatever the iteration order |
| `Attachments.SurvivesExactly` | internal/service/attachments.go:52-76 | a field survives exactly when forwarding is on, its number is on the allow list, and its size is known and within the limit; it survives as it is |
| `Attachments.DroppedExactly` | internal/service/attachments.go:63-71 | noted in the text are exactly the allowed fields that only their size keeps out |
| `Attachments.IsPrimaryBubble` | internal/service/rewrite.go:120-139 | primary means text or any field that is not an annotation marker |
| `Attachments.PrimaryExactly` | internal/service/rewrite.go:120-139 | without text, primary means some numbered field other than 0x30, 0x31, 0x40, 0x41 and 0x42 |
| `Attachments.StampReactorIdentity` | internal/service/rewrite.go:92-99 | stamps exactly the maps that carry a reaction from a known sender |
| `Attachments.FilterDropsForgeries` | internal/service/attachments.go:52-76 | under an accepted configuration no attribution key of any key type survives the filter |
| `KeyNumbers.NoForgerySurvives` | internal/service/attachments.go:52-76 | no attribution survives an accepted policy, as a number of any width or as the text "251" or "252" |
| `Attachments.StampHonest` | internal/service/rewrite.go:92-99 | after the stamp attribution is present if and only if there is a reaction, and it is the sender's; every other field is as it was |
| `Attachments.RewriteKeepsHonest` | internal/service/rewrite.go:215-240 | per-recipient rewriting neither adds, removes nor changes attribution |
| `Fanout.OneLetterEach` | internal/service/forward.go:49-78 | each member with a letter gets exactly one, nobody else gets anything, in any roster order |
| `Fanout.OneLetterEachOver` | internal/service/forward.go:49-78 | however views are registered meanwhile, each member gets at most one letter, the one its own views at its own round make |
| `Fanout.WrittenToExactly` | internal/service/forward.go:52-73 | who is written to: not the sender, a valid address, a view of every resolved target, not text-only with an empty body |
| `Fanout.ForwardToRoster` | internal/service/forward.go:49-78 | with the cache in whatever state each round finds it, the loop posts exactly those letters and writes nothing that existed before |
| `Fanout.LetterIsLocal` | internal/service/forward.go:60-67 | a member's letter depends on the cache through that member's own views only |
| `Inbound.ComposeBody` | internal/service/inbox.go:184-195 | prefix and text when there is text, then one note per oversized field |
| `Inbound.BodyCarriesText` | internal/service/inbox.go:184-187 | the sender's prefix and text come first, untouched, and are all there is without notes |
| `Inbound.NotesFollow` | internal/service/inbox.go:188-195 | each note stands somewhere after the text |
| `Inbound.RelayChat` | internal/service/inbox.go:176-273 | filter, bail-out, plan, bubble with the sender's view, stamp and fan-out in the source's order, for any message; a bail-out changes nothing |
| `Inbound.AnnouncedSees` | internal/service/inbox.go:229-246 | a primary message's bubble lives for the ttl and has its sender's view, the inbound id, and no other; no other bubble changes |
| `Inbound.OwnMessageResolves` | internal/service/inbox.go:231-243 | a reaction to the message resolves at once, whatever the cap, unless another bubble has that id |
| `Inbound.PlanFits` | internal/service/inbox.go:215-266 | a plan made before the stamp fits the stamped map |
| `Relay.StepInv` | internal/service/outbound.go:549-583 | every step of fan-outs, workers, lookups, flushes and restarts keeps one copy per pair, one success per copy, and the views explained by them |
| `RelayRuns.ScanDemandMet` | internal/service/rewrite.go:164-207 | what the scan for annotations asks of the cache holds in every run without an id collision |
| `RelayRuns.InboundOpens` | internal/service/inbox.go:229-246 | the inbound path's announcement of a bubble is the relay's own opening step |
| `Members.LastSeen` | internal/roster/roster.go:70-82 | the latest of join, message, announce and command |
| `Members.LastSpoke` | internal/roster/roster.go:95-101 | the later of join and message |
| `Members.ResolvesUnique` | internal/roster/roster.go:488-524 | every query has one answer, whatever the iteration order |
| `Roster.Roster.AddOrUpdate` | internal/roster/roster.go:140-158 | joins or refreshes, and reports whether the member is new |
| `Roster.Roster.AddInvited` | internal/roster/roster.go:167-183 | adds an invited member who has not spoken, never touching an existing one |
| `Roster.Roster.Touch` | internal/roster/roster.go:195-215 | presence for members only, ending the invited state |
| `Roster.Roster.MarkMessage` | internal/roster/roster.go:223-238 | speech for members only, ending the invited state |
| `Roster.Roster.UpdateLastAnnounce` | internal/roster/roster.go:253-275 | only ever advances, for members only |
| `Roster.Roster.Prune` | internal/roster/roster.go:294-318 | deleting while walking removes exactly the prunable members and reports each once |
| `Roster.Roster.SetRole` | internal/roster/roster.go:391-405 | sets a member's runtime role and nothing else |
| `Roster.Roster.Ban` | internal/roster/roster.go:527-534 | on the banlist and off the roster |
| `Roster.Roster.Unban` | internal/roster/roster.go:536-545 | off the banlist, reported |
| `Roster.Roster.ActiveHashes` | internal/roster/roster.go:419-429 | each member who is not paused, once |
| `Roster.Roster.Resolve` | internal/roster/roster.go:488-524 | nicknames first, then hash prefixes, in any iteration order |
| `Commands.DeriveCaller` | internal/commands/handlers.go:190-210 | the effective role is the config's, raised by a member's own |
| `Commands.HandleJoin` | internal/commands/handlers.go:414-460 | the gates of `/join` in order, then membership and a default nickname |
| `Commands.HandleNick` | internal/commands/handlers.go:584-629 | own nickname for members, anybody's for mods, always matching the pattern |
| `Commands.HandleUserMode` | internal/commands/handlers.go:637-689 | the in-place command is the specified one (what that does: `UserModeDoes`, `UserModeElse`) |
| `Commands.HandleAddUser` | internal/commands/handlers.go:697-743 | mods only, a well-formed address that is neither banned nor a member, within the cap |
| `Commands.HandleRemove` | internal/commands/handlers.go:750-801 | mods only, exactly the resolved member leaves |
| `Commands.HandleBan` | internal/commands/handlers.go:803-822 | mods only, exactly the resolved member is banned |
| `Commands.HandleUnban` | internal/commands/handlers.go:824-864 | an exact hash first, else the only one with that prefix |
| `Commands.Dispatch` | internal/commands/handlers.go:117-188 | every command's whole effect on the roster |
| `Commands.Receive` | internal/service/inbox.go:43-158 | ban check, presence, command or chat in the source's order, and when a message goes on to the fan-out |
| `Commands.ReceiveOnce` | internal/service/inbox.go:23-158 | a duplicate inside the window leaves the roster alone, and a message goes on exactly when it is no duplicate, chat within the limit, from an active member who is not banned |
| `Commands.OnAnnounce` | internal/service/service.go:716-762 | the emission time clamped to now, and a default nickname for members without one |
| `Commands.EnrollConfigRoles` | internal/service/service.go:512-528 | the loop over both lists, and how many it added |
| `Commands.NormalizeHashList` | internal/config/config.go:607-622 | each non-blank folded entry once, and nothing else |
| `AuthorityRuns.AcceptedIsHash` | internal/config/config.go:607-635 | an accepted list entry is 32 lower-case hex digits |
| `AuthorityRuns.EnrolledExactly` | internal/service/service.go:512-528 | start-up adds exactly the missing listed hashes as invited members and touches nobody else |
| `AuthorityRuns.EntryByRight` | internal/commands/handlers.go:414-460 | a hash enters only by start-up enrolment of a listed hash, by its own `/join` (listed, if the group is locked), or by a `/adduser` of somebody effectively at least mod |
| `AuthorityRuns.ExitByRight` | internal/commands/handlers.go:745-822 | a member leaves only by its own `/leave`, by somebody effectively at least mod who named it, or by a sweep whose rules it meets |
| `AuthorityRuns.RenameByRight` | internal/commands/handlers.go:584-629 | a nickname is changed only by its owner, by a mod who named the member, or by an announce while there is none |
| `AuthorityRuns.BanlistByRight` | internal/commands/handlers.go:803-864 | the banlist changes only at the hand of somebody effectively at least mod, for the hash that was named |
| `AuthorityRuns.CapKept` | internal/commands/handlers.go:433-440 | no command, chat, announce or sweep takes the group past its member cap |
| `Nickname.SanitizeNickname` | internal/commands/handlers.go:544-582 | the loop with its early stop, trim and cut is the specified mapping |
| `Nickname.SanitizedClean` | internal/commands/handlers.go:533-582 | whatever is announced, the result is empty or a valid nickname |
| `Nickname.ReplacedAlike` | internal/commands/handlers.go:547-575 | what stands in the place of a replaced character does not matter |
| `Nickname.RunsCollapse` | internal/commands/handlers.go:556-571 | nor how many stand there in a row |
| `FitList.CutMonotone` | internal/commands/handlers.go:373-400 | keeping more lines never makes a shorter reply, although the count may lose a digit |
| `Dedup.DedupCache.SeenBefore` | internal/service/dedup.go:39-53 | the answer and the new table, including the sweep and the over-cap clear |
| `Dedup.DedupCache.Evict` | internal/service/dedup.go:60-69 | expired entries go, and everything when that is not enough |
| `Dedup.SweepIsInvisible` | internal/service/dedup.go:60-65 | dropping expired entries never changes an answer |
| `Dedup.SizeBounded` | internal/service/dedup.go:49-51 | the table is within its cap after every call |
| `Propagation.Tracker.OnAnnounce` | internal/service/propagation.go:90-118 | a known node keeps its first-heard instant, a new one makes room first, never more than 256 |
| `Propagation.Tracker.MakeRoom` | internal/service/propagation.go:162-181 | stale nodes go, and then a least recently heard one if the table is still full |
| `Propagation.RefusedExactly` | internal/service/propagation.go:145-158 | refused are nodes that do not accept mail, ask for a dearer stamp, or offer 1 to 15 KB; nobody else |
| `Propagation.CandidateExactly` | internal/service/propagation.go:203-211 | a candidate is usable and was heard within the last half hour |
| `Propagation.AlwaysDated` | internal/service/propagation.go:90-181 | in every run at most 256 nodes, each dated by its latest announce |

## Left out

- The `rns` and `lxmf` libraries (crypto, links, packets, msgpack, stamps): a send is an oracle that returns an id or an error class; msgpack sizes, announced names, emission times and the node's parsed announce are inputs.
- Files, JSON, atomic rename, locks, logging, TOML: the queue's disk is one value; the roster's file is not modelled, so a restart keeps the roster as it was in memory and a lost deferred timestamp is not captured.
- The replay limiter, the stamp and propagation semaphores of the sender, and the kick-and-debounce loop of the announce store: simpler twins of what is here.
- Test mode without a store or without a cache (`store == nil`, `idmap == nil`).
- Reply texts, help, `/path`, `/about`, `/info`, pins storage, history and the command parser: formatting, or easier members.
- Pointers: queued messages and bubbles are values located by id, so aliasing of a message record between the queue and a worker is not captured; field maps are heap objects.
- Non-ASCII letter case and Unicode spaces in nicknames and queries: `Lower` and `Trim` work on ASCII.
- Inbound.RelayChat: runs its fan-out in one state of the cache, while workers may register views between two members; `ForwardToRoster` itself allows that, each letter depends on its own member's views only (`LetterIsLocal`), and `Relay` interleaves the members of a fan-out with everything else.
- Handlers that take the roster's lock several times are one step, so a sweep or an announce in the middle of a command is not captured.
- Separate clock reads inside one command: a handler uses one instant; likewise the lookups of one `buildRewrite` scan.
- A worker's send returning and its registration are one step of `Relay`, since nothing in between is visible to anybody else.
- Unknown role strings in a hand-edited roster file count as no role, as `parseRole` treats them.
- RoundTrip.ThereAndBack: is about annotations that all still resolve, because one that no longer does stays as B saw it; `RoundTripFields.MessageReturns` goes field by field.
