# Buffered state and its agreements in the doover crate

A Dafny model of the parts of the `doover` crate that hold state between
calls, and proofs of what they promise over whole runs. `dafny verify
dfyconfig.toml` checks everything.

## What is modelled

- **The diff engine** (`Json`, `Diff`, `DiffLaws`, `DiffRoundTrip`):
  `apply_diff` and `generate_diff` on JSON values, with Python's equality of
  numbers. Everything below is built on it, and the laws it lacks decide where
  the buffered stores are correct.
- **The tag runtime** (`KeyPaths`, `Triggers`, `TriggerLaws`, `TagsRuntime`,
  `TagRuns`, `TagReads`, `TagCommits`, `TagPlacement`, `TagTriggers`,
  `TagDelivery`): the device loop's cached aggregate, pending overlay, two log
  buckets and per-tag log triggers. `Runtime` is the class with the source's
  fields; each method is tied to a function on its abstract state, and the run
  theorems are about those functions.
- **RPC** (`Rpc`, `RpcLaws`, `RpcDelivery`, `RpcWakeup`): both sides of the
  protocol as steps that interleave freely. A handler's context is named by a
  handle, so it can be cancelled, and can outlive its handler, as the shared
  context of the source does. `RpcWakeup` is the register, test, sleep loop
  against the canceller.
- **Conditional config** (`ConfigSchema`, `ConfigLaws`, `ConfigLoads`): the
  compiler from `show_if` to JSON Schema, a semantics of the keywords it emits,
  and the loader.
  The semantics follow sections 4.2.2, 10.2.1.1, 10.2.2 and 10.3.2.1 of JSON
  Schema Core draft 2020-12 and sections 6.1.2, 6.1.3 and 6.5.3 of its
  Validation document.
- **Processor tags** (`ProcessorTags`, `ProcessorTagLaws`, `ProcessorLogs`): the
  write-back buffer of one invocation, the mock backend it commits to, and the
  two guards against feedback.
- **Smaller cores**: `PulseCounter` with `PulseLaws`, `UiPositions`, `LegacyStruct`.

A *layout* (`KeyPaths.Fits`) says which paths hold tags and which hold groups of
tags. For `{app: {tag: value}}` maps with plain values there always is one. Log
conservation and the refinement are proved without it, for every run whose
accepted writes (and, for the refinement, syncs) can be regrouped at the moment
they are made; that writes which agree on a layout always can is a corollary.
The condition is exact for each write and each sync. What is said of single tags,
commit placement among it, asks only that the tag's own path holds groups
(`KeyPaths.Slotted`); the other tags may hold and be set to anything.

A failed call ends a run, as the application then exits and is restarted; the
class methods state what a failed call leaves behind.

## What the proofs show about the code

- Merging is not associative. `Associates` is the exact condition, and it is the
  exact condition for stripping a bucket ahead of a write, for a write to read
  back as a merge, and for a periodically logged write to keep the logs adding
  up. For a write logged at once it is `LogRegroups`, as that write is moved ahead
  of two buckets.
- What is set is not always what is read: an object set over an object reads back
  exactly when it covers what cache and overlay hold.
- A generated diff cannot express one change: a plain value replaced by `{}`.
  `only_if_changed` never sees that change either.
- A write sent with `flush` does not leave the overlay, and a commit takes the
  overlay out only if a buffered write is still owed. So a sync after a commit is
  seen exactly when one was, or when the overlay agrees with it.
- A publish that fails loses the overlay for good: nothing is owed any more, though
  the values stay in the log buckets.
- Where a commit falls cannot be noticed by Cross, Rise, Fall or Delta triggers.
  AnyChange notices it unless the declared default is null; Enter and Exit unless
  the default is null, or neither the default nor null is their value.
- The comment on `TagCallback` (`doover/src/tags/runtime.rs:26-28`) speaks of a
  value that is absent when the path vanished. The code filters those calls out:
  no subscriber is ever told that a tag vanished.
- With the default dead band of zero, a value resting on its threshold fires on
  every update.
- A message is safe from updates exactly when every context that answers it is
  cancelled. For request ids delivered once there is only one; a redelivered id
  leaves an earlier handler that a cancellation does not reach. And when either of
  the two returns, `inflight` forgets the other.
- A success that answers a command again is merged with the response already there.
- A handler that reports progress with a field such as `cancelled_at` turns its
  own later error into a cancellation, because updates are merged.
- Schema and loader agree except on numbers: `const` and `enum` take 1.0 for 1,
  the loader's comparison does not.
- Write-back cannot be judged one set at a time: two sets that each replace a
  value cleanly can leave a remnant at the backend when no commit stands between
  them. The exact condition is on what the backend holds at the commit.
- Replaying offline events is safe exactly as far as events carry a time.

## Model

| member | source | states |
|---|---|---|
| `Diff.ApplyDiffInPlace` | doover/src/utils/diff.rs:30-66 | the in-place loop, in any key order, computes the recursive patch: null deletes or is stored, a non-object replaces wholesale |
| `Diff.GenerateDiffLoop` | doover/src/utils/diff.rs:73-101 | the loop computes the diff: changed keys only, hollow sub-diffs dropped, deleted keys as null when asked |
| `Json.PyEqIsNormEquality` | doover/src/utils/diff.rs:105-155 | `python_json_eq` is equality of normal forms (booleans 0/1, integers and floats by value), so an equivalence relation |
| `DiffLaws.MergeAt` | doover/src/utils/diff.rs:30-66 | what a merge holds at one key, with a missing key told apart from an empty object |
| `DiffLaws.MergeIdempotent` | doover/src/utils/diff.rs:30-66 | merging a value into itself changes nothing |
| `DiffLaws.MergeOntoEmpty` | doover/src/utils/diff.rs:45-53 | patching an absent key with an object stores the object |
| `DiffLaws.CoveredIsOverwritten` | doover/src/utils/diff.rs:30-66 | a merge leaves exactly the second value if and only if every path of the first lies on a path of the second |
| `DiffLaws.AssociativityIsExact` | doover/src/utils/diff.rs:30-66 | two merges may be regrouped if and only if no plain value stands between two objects of which the first holds something the last does not overwrite |
| `DiffLaws.CoversBothExactly` | doover/src/utils/diff.rs:30-66 | two layers below a value leave it as it is if and only if it covers both |
| `DiffLaws.MergeIsNotAssociative` | doover/src/utils/diff.rs:30-66 | the smallest clash, `{a:{b:1}}`, `{a:1}`, `{a:{c:1}}`, and what either grouping gives |
| `DiffLaws.DeletingReadsAsNull` | doover/src/utils/diff.rs:54-60 | deleting on null and storing null read the same when a missing key reads as null |
| `DiffLaws.OverlayAfterPublish` | doover/src/tags/runtime.rs:406-409 | overlaying a write on the cache it was already published to gives what overlaying alone gives |
| `DiffRoundTrip.PatchReachesNew` | doover/src/utils/diff.rs:73-101 | patching the old value with the generated diff reaches the new one (up to number representation, nulls and empty objects against missing keys) if and only if no plain value is replaced by `{}` |
| `DiffRoundTrip.EmptyDiffMeansNoChange` | doover/src/utils/diff.rs:73-101 | between objects, a non-empty diff means that merging changes something; an empty one means that it changes nothing, exactly unless a plain value is flattened to `{}` |
| `KeyPaths.ConstructLoop` | doover/src/tags/mod.rs:76-84 | the reverse loop wraps a value along a path |
| `KeyPaths.LookupLoop` | doover/src/tags/mod.rs:88-94 | the loop resolves a path, telling a stored null from a missing key |
| `KeyPaths.LookupConstruct` | doover/src/tags/mod.rs:76-94 | looking up a constructed path gives the value back |
| `KeyPaths.StripPathsInPlace` | doover/src/tags/mod.rs:105-122 | the in-place removal, in any key order, drops the written leaves and every object they empty |
| `KeyPaths.StripExchange` | doover/src/tags/mod.rs:102-122 | moving a write ahead of a buffer stripped of its paths keeps the result, if and only if the three values can be regrouped |
| `KeyPaths.StripKeepsSolid` | doover/src/tags/mod.rs:113-117 | stripping leaves no empty group behind where there was none |
| `KeyPaths.FitsAssociates` | doover/src/tags/mod.rs:40-64 | values that agree on which paths hold tags and which hold groups can always be regrouped |
| `KeyPaths.SlotMerge` | doover/src/tags/mod.rs:86-94 | for a tag whose path holds groups, a merge reads as the later value, else the earlier |
| `KeyPaths.SlotPublish` | doover/src/utils/diff.rs:40-66 | for such a tag publishing a diff reads as the later value, a null as nothing |
| `KeyPaths.SlotStrip` | doover/src/tags/mod.rs:105-122 | for such a tag stripping removes its entry if and only if the write holds it |
| `Triggers.EvaluateCrossing` | doover/src/tags/triggers.rs:236-267 | the loop over zipped sides and thresholds fires exactly when some threshold is crossed in a wanted direction, and flips exactly the crossed sides |
| `Triggers.EvaluateOne` | doover/src/tags/triggers.rs:196-232 | one trigger's decision and next state |
| `Triggers.EvaluateSet` | doover/src/tags/triggers.rs:336-345 | a tag fires when any trigger does, on the stored value or the default; every state advances |
| `TriggerLaws.ThresholdsAreSorted` | doover/src/tags/triggers.rs:64-69 | thresholds come out sorted and unchanged as a multiset; only the empty list is refused |
| `TriggerLaws.LevelStep` | doover/src/tags/triggers.rs:248-267 | the sides always are a prefix, described by one level; an update moves the level one way only, and fires exactly as the level moves |
| `TriggerLaws.CrossingIsALevel` | doover/src/tags/triggers.rs:234-267 | over any run a crossing trigger decides like a single hysteresis level |
| `TriggerLaws.RiseAndFallPartitionCross` | doover/src/tags/triggers.rs:39-46 | over any run, Cross fires exactly when Rise or Fall would, and those two never together |
| `TriggerLaws.RepeatFiresExactly` | doover/src/tags/triggers.rs:251-265 | for Cross, Rise and Fall, a repeated number fires again if and only if it sits on both edges of some band and the second flip goes the wanted way |
| `TriggerLaws.RepeatNeverFires` | doover/src/tags/triggers.rs:39-46 | with a dead band above zero no repeated value fires |
| `TriggerLaws.ZeroDeadbandChatters` | doover/src/tags/triggers.rs:251-265 | with the default dead band of zero a value resting on its threshold fires and flips on every update |
| `TriggerLaws.CrossingFiresExactly` | doover/src/tags/triggers.rs:197-206 | in a run Cross, Rise and Fall fire exactly on the updates that flip a recorded side the wanted way |
| `TriggerLaws.FallsBetweenRises` | doover/src/tags/triggers.rs:39-46 | between two rises over one threshold the value came down by half the dead band below it |
| `TriggerLaws.RisesBetweenFalls` | doover/src/tags/triggers.rs:39-46 | between two falls over one threshold the value rose by half the dead band above it |
| `TriggerLaws.DeltaTracksValue` | doover/src/tags/triggers.rs:269-290 | over any run every numeric update is within the amount, or the percentage, of the value the trigger last fired on |
| `TriggerLaws.DeltaStep` | doover/src/tags/triggers.rs:271-289 | one update: a value fired on becomes the baseline, any other leaves it and is near it |
| `TriggerLaws.BlindExactly` | doover/src/tags/triggers.rs:196-231 | a trigger decides alike on every update after null and after the default if and only if it is of the crossing or delta kind, or the default is null, or it enters or exits a value that is neither null nor the default |
| `TriggerLaws.JsonEqIsEquality` | doover/src/tags/triggers.rs:296-301 | `json_eq` is an equivalence: numbers by value, anything else structurally |
| `TriggerLaws.ChangesFireExactly` | doover/src/tags/triggers.rs:219-230 | over any run AnyChange fires exactly on changes, Enter exactly when the value becomes the target, Exit exactly when it ceases to be |
| `TriggerLaws.EntriesBalanceExits` | doover/src/tags/triggers.rs:223-230 | over any run the numbers of entries and exits differ by where the run starts and ends |
| `TriggerLaws.DeltaFiresExactly` | doover/src/tags/triggers.rs:269-290 | over any run a delta trigger fires on the first number, and then exactly on those not near the value it last fired on |
| `TagTriggers.FiresExactly` | doover/src/tags/runtime.rs:229 | a set is promoted if and only if one of its tag's triggers fires on it |
| `TagTriggers.SetAdvances` | doover/src/tags/triggers.rs:336-345 | a set runs every trigger of the tag on what it found or the default, and keeps each one's new state |
| `TagTriggers.DecisionsAreTraces` | doover/src/tags/runtime.rs:216-230 | over any run the decisions of each trigger on a tag's sets are its own trace over what the sets find and set |
| `TagTriggers.TraceOfChanges` | doover/src/tags/triggers.rs:219-230 | in such a trace AnyChange, Enter and Exit decide by what the set found, else the default, against what it set |
| `TagTriggers.RuntimeReplays` | doover/src/tags/runtime.rs:203-230 | from its registration on each crossing or delta trigger of a tag decides as replayed over the values set, whatever else happens in the run |
| `TagsRuntime.Runtime.constructor` | doover/src/tags/runtime.rs:84-99 | starts with empty cache, overlay and buckets |
| `TagsRuntime.Runtime.OnTagSync` | doover/src/tags/runtime.rs:154-157 | a sync replaces the cache and nothing else |
| `TagsRuntime.Runtime.OnTagUpdate` | doover/src/tags/runtime.rs:159-181 | an update replaces the cache and calls the subscribers the diff concerns, in order |
| `TagsRuntime.Runtime.RegisterLogTriggers` | doover/src/tags/runtime.rs:203-214 | re-registering replaces a path's triggers and resets their state |
| `TagsRuntime.Runtime.EvaluateLogTriggers` | doover/src/tags/runtime.rs:221-230 | decision and state change of a path's triggers, on cache overlaid with pending |
| `TagsRuntime.Runtime.GetTagValue` | doover/src/tags/runtime.rs:331-336 | reads the cache overlaid with pending writes |
| `TagsRuntime.Runtime.SetTagValue` | doover/src/tags/runtime.rs:345-357 | triggers first, then the nested write with `log` promoted |
| `TagsRuntime.Runtime.SetNestedTags` | doover/src/tags/runtime.rs:361-412 | the whole new state: the skip test, the two log buckets, overlay, immediate flush and its failure |
| `TagsRuntime.Runtime.CommitTags` | doover/src/tags/runtime.rs:416-432 | aggregate, then immediate log, then the periodic log when due; stops at the first failed call |
| `TagRuns.BufferedConservesExactly` | doover/src/tags/runtime.rs:373-387 | a buffered write, logged at once or periodically, keeps messages, immediate and periodic bucket adding up to the accepted writes if and only if it can be regrouped with them |
| `TagRuns.LoggedExchange` | doover/src/tags/runtime.rs:373-380 | moving a logged write into the immediate bucket, ahead of the stripped periodic one, keeps the sum of the logs if and only if no group it writes into gets back what a plain value had replaced |
| `TagRuns.FlushesConserve` | doover/src/tags/runtime.rs:492-516 | sending either bucket keeps that sum |
| `TagRuns.PublishConserves` | doover/src/tags/runtime.rs:416-432 | no commit loses or repeats a logged value |
| `TagRuns.RunConserves` | doover/src/tags/runtime.rs:361-432 | log conservation over every run of sets (buffered or flushed), commits, syncs and registrations whose accepted writes can be regrouped when they are made |
| `TagRuns.InitialConserves` | doover/src/tags/runtime.rs:361-432 | so over every run from the start whose writes agree on a layout, such as app/tag maps with plain values |
| `TagRuns.MergeAllIsLastWrite` | doover/src/utils/diff.rs:30-66 | merging writes in order gives a tag whose path holds groups its last write |
| `TagRuns.LastLoggedIsLatest` | doover/src/tags/runtime.rs:361-432 | for every tag whose path only ever holds groups and at its end plain values, whatever the other tags do: after any run its last logged value, buckets counted as logged next, is the last one accepted |
| `TagRuns.FitsSlotted` | doover/src/tags/mod.rs:40-64 | in values of one layout every tag is such a tag |
| `TagReads.RunRefines` | doover/src/tags/runtime.rs:154-181 | over any run of sets (buffered or flushed), syncs and commits that can be regrouped when they are made, a reader sees the store of a base and the writes over it, null read as missing |
| `TagReads.ResyncsExactly` | doover/src/utils/diff.rs:30-66 | writing over a base and merging the writes first come to the same if and only if no plain write hides something the base holds and the merged writes do not |
| `TagReads.SyncReadsExactly` | doover/src/tags/runtime.rs:154-157 | so a sync under unpublished writes reads as the store's if and only if they can be regrouped with it |
| `TagReads.StepTracks` | doover/src/tags/runtime.rs:345-432 | every set, sync, registration and commit keeps that view |
| `TagReads.CommitKeepsView` | doover/src/tags/runtime.rs:435-455 | a commit is the identity for a reader, null read as missing |
| `TagReads.LayoutRegroups` | doover/src/tags/mod.rs:40-64 | writes and syncs that agree on one layout can be regrouped at every step |
| `TagReads.LayoutRefines` | doover/src/tags/runtime.rs:154-181 | so from the start such runs refine the store with no other condition |
| `TagReads.SetReadsAsMergeExactly` | doover/src/tags/runtime.rs:387-411 | outside a layout: one accepted write, buffered or flushed, reads back as a merge if and only if cache, overlay and write can be regrouped |
| `TagReads.SkippedWriteChangesNothing` | doover/src/tags/runtime.rs:364-371 | a write skipped as unchanged would have changed only number representation and empty groups, if and only if it puts `{}` in no plain value's place |
| `TagReads.FitsNeverFlattens` | doover/src/tags/mod.rs:40-64 | within a layout no write does |
| `TagReads.SingleSetIsSkippedExactly` | doover/src/tags/runtime.rs:340-371 | a plain value is skipped if and only if the tag already holds an equal one |
| `TagReads.ReadYourWrite` | doover/src/tags/runtime.rs:331-357 | an accepted value is what is read next if and only if it covers what cache and overlay hold for the tag, as every plain value does; a plain value also when the write is skipped |
| `TagReads.FlushedWriteMasksLaterSync` | doover/src/tags/runtime.rs:388-410 | a plain value sent with `flush` stays in the overlay through the next commit and hides what a later sync says |
| `TagReads.SyncIsSeenExactly` | doover/src/tags/runtime.rs:435-455 | after a commit a sync is seen as it is if and only if the commit had something to publish or the overlay it left says nothing else |
| `TagReads.SyncedTagIsSeenExactly` | doover/src/tags/runtime.rs:154-157 | the same for one tag whose path holds groups, whatever the other tags hold |
| `TagReads.AgentFollowsCache` | doover/src/tags/runtime.rs:396-455 | an agent merging everything published holds what the cache holds, for any tags and any mix of buffered and flushed writes |
| `TagReads.PeriodicLogsKeepTime` | doover/src/tags/runtime.rs:421-430 | over any run periodic logs go out at least the interval apart |
| `TagDelivery.CommitSendsExactly` | doover/src/tags/runtime.rs:416-516 | everything a commit sends and leaves behind, for any answers of the agent, up to the first failed call; a periodic bucket goes out if none did within the interval, or ever |
| `TagDelivery.NothingWaitsTooLong` | doover/src/tags/runtime.rs:421-430 | after any commit of a run from the start, a periodic bucket that is not empty had a flush less than the interval before |
| `TagDelivery.CommitDelivers` | doover/src/tags/runtime.rs:396-455 | after a commit that ends any run of sets, buffered or flushed, an agent merging what is published has what a reader sees |
| `TagDelivery.FailedPublishLosesOverlay` | doover/src/tags/runtime.rs:441-451 | a publish that fails loses the overlay, keeps the logs, and leaves nothing owed |
| `TagDelivery.FailedFlushKeepsWrite` | doover/src/tags/runtime.rs:396-405 | a failed immediate flush keeps the write in overlay and log, and what was owed stays owed |
| `TagDelivery.SetIsLogged` | doover/src/tags/runtime.rs:352-385 | an accepted value is in the immediate bucket if its log was asked for or a trigger fired, else in the periodic one, never in both |
| `TagDelivery.SetIsSkippedExactly` | doover/src/tags/runtime.rs:340-371 | setting a plain value changes nothing but trigger states if and only if changes alone are wanted and the tag holds an equal one |
| `TagDelivery.NestedSetIsSkippedExactly` | doover/src/tags/runtime.rs:364-371 | any tags are skipped if and only if changes alone are wanted and merging would change nothing but number form and empty groups, if they flatten nothing |
| `TagDelivery.SetThenGet` | doover/src/tags/runtime.rs:331-357 | by app and key: a plain value set is what is got, and no other tag reads differently |
| `TagDelivery.ScopedIsInjective` | doover/src/tags/mod.rs:57-64 | app and key give distinct tags paths of which none contains another; a global tag's contains those of the app it is named as |
| `TagReads.PeriodicStep` | doover/src/tags/runtime.rs:505-516 | a due commit sends the periodic bucket, empties it and stamps the time; nothing else stamps it, and nothing is due after a commit |
| `TagReads.SubscriberCalledExactly` | doover/src/tags/runtime.rs:165-180 | among an update's calls each subscription of a plain tag has exactly one, with the new value, if the tag is there with another value than before, and none otherwise |
| `TagPlacement.PlacementIsInvisible` | doover/src/tags/runtime.rs:216-230 | for one tag: the same plain sets and registrations of it, with commits anywhere and any sets and registrations of other tags around them, give the same decision of its triggers, if they are blind to its default |
| `TagPlacement.CommitPlacementIsInvisible` | doover/src/tags/runtime.rs:435-455 | so for all tags together, on any set of paths none of which contains another |
| `TagPlacement.OthersKeepAlike` | doover/src/tags/runtime.rs:361-455 | a commit or a write elsewhere changes nothing a tag's triggers can see |
| `TagCommits.CommitExposesDefault` | doover/src/tags/runtime.rs:199-202 | on a cleared tag a trigger decides alike on every update before and after the commit if and only if it is blind to the default |
| `TagCommits.DefaultIsNoticed` | doover/src/tags/runtime.rs:221-230 | for every trigger that is not blind, from any state that holds groups along the path, two continuations with the same sets that one commit tells apart |
| `Rpc.Manager.OnRequest` | doover/src/rpc.rs:716-788 | every check of an incoming request, in the code's order; a served command is in flight before its handler runs |
| `Rpc.Manager.OnStatus` | doover/src/rpc.rs:308-382 | progress, acknowledge and defer: what is written, when nothing is, and which calls fail |
| `Rpc.Manager.OnReturn` | doover/src/rpc.rs:789-792 | a returned handler's command leaves `inflight` |
| `Rpc.Manager.OnOutcome` | doover/src/rpc.rs:794-822 | the outcome is written unless the command was cancelled or cannot be answered |
| `Rpc.Manager.OnUpdate` | doover/src/rpc.rs:824-890 | an update withdraws a running command or resolves the waiting call, in the code's order of tests |
| `Rpc.Manager.OnMark` | doover/src/rpc.rs:273-280 | marks the context that was looked up |
| `RpcLaws.CancelledHandlerIsSilent` | doover/src/rpc.rs:282-291 | after its context is marked cancelled a handler writes nothing, in every interleaving, even through a context it kept after returning |
| `RpcLaws.SilentExactly` | doover/src/rpc.rs:282-291 | in every continuation without another request for it a message is never updated again, if and only if every context that answers it is cancelled |
| `RpcLaws.CancelledMessageIsUntouched` | doover/src/rpc.rs:780-794 | so for request ids delivered once no update of a served message follows its cancellation |
| `RpcLaws.RedeliveryEscapesCancellation` | doover/src/rpc.rs:786-792 | without unique ids this fails: a request delivered twice leaves an earlier handler that still writes |
| `RpcLaws.RedeliveryHidesRunning` | doover/src/rpc.rs:789-792 | a request delivered twice, the first handler returned: the second is running, not in flight, and a cancellation does not find it |
| `RpcLaws.InflightExactly` | doover/src/rpc.rs:517-522 | over any run what is in flight is running; and all that is running is in flight throughout if and only if each handler that returns is the only one running for its command |
| `RpcLaws.StepServes` | doover/src/rpc.rs:517-522 | every step, of requests whose ids are delivered once, keeps `inflight` equal to the running commands, one context an id |
| `RpcLaws.InflightIsExactlyRunning` | doover/src/rpc.rs:518-522 | so after any run of requests whose ids are delivered once an id is in flight if and only if its handler is running |
| `RpcLaws.CancellationIsNotLost` | doover/src/rpc.rs:834-848 | a cancellation that finds its command running stays outstanding until the context is marked |
| `RpcLaws.WithdrawnBeforeArrival` | doover/src/rpc.rs:754-762 | a command whose message was patched with a cancellation before its create event arrives is not served |
| `RpcLaws.CallResolvesOnce` | doover/src/rpc.rs:647-674 | in every interleaving a call leaves `pending` once, with the first terminal update or its deadline, and then never changes |
| `RpcLaws.StepSettles` | doover/src/rpc.rs:657-673 | registration, update and deadline: what one step does to a waiting call |
| `RpcLaws.StepKeepsSettled` | doover/src/rpc.rs:824-890 | a settled call is not touched again |
| `RpcLaws.CancellationIsNeverAFailure` | doover/src/rpc.rs:856-868 | an update resolves a call as cancelled if and only if it carries a cancellation |
| `RpcLaws.SuccessArrives` | doover/src/rpc.rs:894-905 | a success merged into any message reads back as the merge of its responses, so as sent if and only if it covers the response held before |
| `RpcLaws.ErrorArrives` | doover/src/rpc.rs:907-924 | an error merged into its message reads back as sent, exactly unless earlier progress left a cancellation marker; then it reads as a cancellation |
| `RpcLaws.ReportsKeepWaiting` | doover/src/rpc.rs:851-854 | a status report merged into any message neither resolves nor withdraws the call |
| `RpcDelivery.RequestIsServedExactly` | doover/src/rpc.rs:473-499 | a request as `call_with` writes it is served if and only if there is a handler, it has not expired and it names no other app; one-shots are served without an answer |
| `RpcDelivery.OthersAreIgnored` | doover/src/rpc.rs:716-764 | anything that is not such a request, or was withdrawn, starts nothing |
| `RpcDelivery.OutcomeIsWrittenExactly` | doover/src/rpc.rs:794-822 | the outcome of a returned handler is written once, as an update that reads as that outcome, unless it was cancelled or cannot be answered |
| `RpcDelivery.RunAnswersOnce` | doover/src/rpc.rs:789-822 | in every interleaving a request is answered at most once, not before its handler is done, and exactly once by then unless cancelled or one-shot |
| `RpcDelivery.AnswerArrives` | doover/src/rpc.rs:870-889 | from handler to caller: the outcome, merged into the message and read by the waiting manager, resolves the call with it |
| `RpcDelivery.BeginCallWaits` | doover/src/rpc.rs:657-659 | a call starts waiting |
| `RpcDelivery.TerminalExactly` | doover/src/rpc.rs:850-885 | an update ends a call if and only if its status is a success or an error |
| `RpcDelivery.ErrorReadsAs` | doover/src/rpc.rs:872-883 | the code and text an error reads as, with or without a body of its own |
| `RpcDelivery.ProgressReads` | doover/src/rpc.rs:317-336 | progress merged into any message reads as pending with its text and every plain field |
| `RpcDelivery.AcknowledgementReads` | doover/src/rpc.rs:349-357 | an acknowledgement reads as such with its time |
| `RpcDelivery.DeferralReads` | doover/src/rpc.rs:369-381 | a deferral reads as such with its time and the promised one |
| `RpcDelivery.ReportFailsExactly` | doover/src/rpc.rs:317-325 | a report is malformed if and only if its fields are neither an object nor null |
| `RpcDelivery.SiteCancelIsSeen` | doover/src/rpc.rs:99-109 | the site's cancellation is recognised with all its marks and with any one of them |
| `RpcDelivery.CancelTextIsSeen` | doover/src/rpc.rs:116-135 | its text is recognised in either spelling, any case and any blanks around it, and no other text is |
| `RpcDelivery.CancellationReaches` | doover/src/rpc.rs:273-280 | a cancellation of a running command, once marked, is in its context with the body that said so |
| `RpcWakeup.NoLostWakeup` | doover/src/rpc.rs:232-244 | in every interleaving nobody is asleep and unnotified after a notify, a sleeper on a set flag has a notify to come, and nobody returns without a cancellation |
| `RpcWakeup.StepKeepsInvariant` | doover/src/rpc.rs:273-280 | each move of a waiter or canceller keeps that invariant |
| `RpcWakeup.WaitersReturn` | doover/src/rpc.rs:232-244 | once the flag is set every waiter not asleep unnotified returns within three moves of its own |
| `ConfigSchema.BuildObjectSchema` | doover/src/config/schema.rs:559-646 | the loops build properties, required names and branches as specified, and refuse exactly the bad declarations |
| `ConfigSchema.BuildBranch` | doover/src/config/schema.rs:603-642 | one branch with its `if` and `then` |
| `ConfigLaws.CollectGroups` | doover/src/config/schema.rs:594-600 | one group a condition, holding exactly the elements with that condition |
| `ConfigLaws.EachElementHasOnePlace` | doover/src/config/schema.rs:546-555 | every element is in `properties`, or in exactly one `then` branch |
| `ConfigLaws.IfMeansShown` | doover/src/config/schema.rs:619-636 | an emitted `if` accepts a config exactly when its controller matches, or is absent with a matching default |
| `ConfigLaws.IfAgreesExactly` | doover/src/config/schema.rs:316-327 | an `if` accepts a config exactly when `condition_holds`, if and only if the controller does not match only numerically |
| `ConfigLaws.NumericMismatch` | doover/src/config/schema.rs:85-93 | configs where they disagree: 1.0 for a condition on 1, 1 for a list with 1.0 |
| `ConfigLaws.ThenMeansMembers` | doover/src/config/schema.rs:606-617 | a `then` accepts a config exactly when every member is valid and the required ones are there |
| `ConfigLaws.SchemaMeansElements` | doover/src/config/schema.rs:687-693 | the emitted schema accepts a config exactly when every active element is fulfilled |
| `ConfigLaws.DemandedExactly` | doover/src/config/schema.rs:303-307 | the schema demands a key exactly when its element is required and its `if`, if any, accepts |
| `ConfigLaws.LoaderAgreesExactly` | doover/src/config/mod.rs:294-325 | the loader fails as not found exactly when the schema demands the absent key, if and only if no absent required element has an only numerically matching controller |
| `ConfigLoads.ConditionHoldsExactly` | doover/src/config/schema.rs:316-327 | a condition holds if and only if its controller's value in the config, else its default, is the condition's value or in its list |
| `ConfigLoads.BuildFailsExactly` | doover/src/config/schema.rs:575-592 | compilation fails if and only if a condition names no element, its own element or a conditional one |
| `ConfigLoads.ControllersAreProperties` | doover/src/config/schema.rs:587-592 | every controller of a compiled schema is among its plain properties |
| `ConfigLoads.GivenIsLoaded` | doover/src/config/mod.rs:307-308 | a value given is the value loaded, or an error if it does not convert |
| `ConfigLoads.MissingIsDefaulted` | doover/src/config/mod.rs:300-323 | null and missing keys load the default, a required null loads as null, and a required missing key of an active element is not found |
| `ConfigLoads.AcceptedConfigLoads` | doover/src/config/mod.rs:294-325 | on a config the schema accepts, if no controller matches only numerically, every element is found, and loads the config's own value wherever it gives one |
| `ProcessorTags.MergeInPlace` | doover/src/testing.rs:76-90 | the mock backend's merge is the merge of `apply_diff` without deletion |
| `ProcessorTags.Tags.constructor` | doover/src/processor/tags.rs:70-92 | starts from the seed, a non-object seed as empty, with nothing buffered |
| `ProcessorTags.Tags.Set` | doover/src/processor/tags.rs:130-179 | the whole new state of a set, changed or re-asserted |
| `ProcessorTags.Tags.CommitTags` | doover/src/processor/tags.rs:192-247 | the whole new state of a commit, its two writes and either one refused |
| `ProcessorTagLaws.SeededIsBuffered` | doover/src/processor/tags.rs:77-91 | a buffer seeded with what the backend holds starts in the invariant, covered |
| `ProcessorTagLaws.SetKeepsBuffer` | doover/src/processor/tags.rs:130-179 | every set preserves: what memory holds under an app that is not dirty is at the backend, which may hold more |
| `ProcessorTagLaws.DirtyIsPublished` | doover/src/processor/tags.rs:200-213 | the emptiness test never holds back dirty tags |
| `ProcessorTagLaws.CommitRestoresExactly` | doover/src/processor/tags.rs:192-247 | a commit leaves the backend equal to memory if and only if memory covers every path the backend held |
| `ProcessorTagLaws.CommitsWriteBackExactly` | doover/src/processor/tags.rs:192-247 | over every run of sets, mode changes and commits, written back or not, a commit that succeeds leaves the backend equal to memory if and only if memory covers what the backend held; without a guard all succeed |
| `ProcessorTagLaws.SetKeepsCover` | doover/src/processor/tags.rs:155-171 | a set that leaves out nothing the backend would keep preserves that covering |
| `ProcessorTagLaws.CommitsWriteBack` | doover/src/processor/tags.rs:181-187 | so over every run in which each set replaces, each commit that succeeds leaves the backend equal to memory |
| `ProcessorTagLaws.DetourLeavesRemnant` | doover/src/processor/tags.rs:123-179 | object, plain value, other object between two commits: each set replaces, yet the backend ends up equal to memory if and only if the last object covers the first |
| `ProcessorTagLaws.NoFeedback` | doover/src/processor/runner.rs:399-413 | an app that set only its own tags is never refused; every event its writes cause is rejected as its own, and by no other app or channel |
| `ProcessorTagLaws.PayloadsAreOwn` | doover/src/processor/tags.rs:200-230 | without sets of other apps both payloads of a commit hold this app's key only |
| `ProcessorTagLaws.GuardIsExact` | doover/src/api/data.rs:215-236 | a write is refused if and only if it goes to the invoking channel, and that is not `tag_values` or it holds another app's key |
| `ProcessorTagLaws.LogsAreOrdered` | doover/src/processor/tags.rs:217-226 | in one commit the changed tags are among the set tags, and both are what memory holds, missing read as null |
| `ProcessorTagLaws.ModesAreOrdered` | doover/src/processor/tags.rs:23-35 | over every run in one mode, guarded or not, each commit reached logs no more in OnlyChanged than in OnlySet, and no more in OnlySet than `tag_values` holds, missing read as null |
| `ProcessorTagLaws.SecondCommitIsSilent` | doover/src/processor/runner.rs:255-257 | a second commit with no set in between does nothing, whatever the first came to; Never logs nothing |
| `ProcessorLogs.SetContents` | doover/src/processor/tags.rs:134-171 | a set is read back at once, nothing else reads differently, and it is touched, and dirty if it changed the value |
| `ProcessorLogs.MissingReadsNull` | doover/src/processor/tags.rs:143-156 | a missing tag reads as null, so clearing it changes nothing and dirties nothing |
| `ProcessorLogs.SetFlags` | doover/src/processor/tags.rs:145-178 | when a set asks for a commit, a log and the writing of other apps |
| `ProcessorLogs.UpdateIsPublishedExactly` | doover/src/processor/tags.rs:212-242 | the aggregate is published, once and with all in scope, if and only if a set since the last commit changed a tag |
| `ProcessorLogs.LogIsWrittenExactly` | doover/src/processor/tags.rs:215-245 | a log is written if and only if one was asked for, a set woke the commit and the mode leaves something; and then holds exactly the mode's tags |
| `ProcessorLogs.GuardedCommitExactly` | doover/src/processor/tags.rs:238-246 | under the guard: when a commit fails, what of it stands, and that the buffers are gone either way |
| `PulseCounter.Counter.constructor` | doover/src/docker/platform.rs:1291-1313 | starts at zero, in neither mode |
| `PulseCounter.Counter.StartListenerPulses` | doover/src/docker/platform.rs:1329-1339 | enters live mode unless in event mode |
| `PulseCounter.Counter.ReceivePulse` | doover/src/docker/platform.rs:1348-1364 | counts a live pulse after the grace period and what the callback is told |
| `PulseCounter.Counter.AddExistingEvents` | doover/src/docker/platform.rs:1388-1397 | appends known timestamps and recounts, unless in live mode |
| `PulseCounter.Counter.ReceiveEvents` | doover/src/docker/platform.rs:1403-1462 | the loop processes a batch event by event and reports each counted pulse |
| `PulseCounter.ReceiveSplits` | doover/src/docker/platform.rs:1413-1461 | a batch cut in two is processed as one |
| `PulseCounter.OldBatchIsIgnored` | doover/src/docker/platform.rs:1436-1443 | a batch changes nothing if and only if every pulse in it is old; the count never falls |
| `PulseCounter.ReplayIsSafeExactly` | doover/src/docker/platform.rs:1429-1443 | reading a batch again changes nothing if and only if no event without a time reads a clock past the newest pulse by more than 10 ms |
| `PulseCounter.ReplayedLogCountsOnce` | doover/src/docker/platform.rs:1368-1384 | with event times, fetching a longer log from its start counts each event once, whatever the order inside |
| `PulseCounter.ModesExclude` | doover/src/docker/platform.rs:1274-1280 | in every run the two modes are never both on, and event mode is never left |
| `PulseCounter.ReceiveKeepsSpacing` | doover/src/docker/platform.rs:1436-1443 | recorded pulses stay more than 10 ms apart |
| `PulseCounter.RateIsBounded` | doover/src/docker/platform.rs:1466-1480 | the pulses in a window and the reported rate are bounded by that spacing |
| `PulseLaws.ReceiveExactly` | doover/src/docker/platform.rs:1403-1462 | a batch adds exactly its pulses thinned out to more than 10 ms apart, one count each |
| `PulseLaws.ThinnedIsAllExactly` | doover/src/docker/platform.rs:1436-1443 | all of them are counted if and only if they are that far apart, and from the newest before |
| `PulseLaws.UpdatesTellPulses` | doover/src/docker/platform.rs:1429-1460 | every pulse counted is told once, in order, with its time, count and distance |
| `PulseLaws.EdgesAreTold` | doover/src/docker/platform.rs:1414-1427 | the level and edge told for each kind of event, and that no other event counts |
| `PulseLaws.StartedCountsExactly` | doover/src/docker/platform.rs:1329-1364 | started as a live counter it counts exactly the pulses after the grace period; in event mode it does not start |
| `PulseLaws.CountIsStamps` | doover/src/docker/platform.rs:1388-1397 | unless overwritten the count is the number of pulses recorded, over any run |
| `PulseLaws.ExistingExactly` | doover/src/docker/platform.rs:1388-1397 | known timestamps are added at the end and recounted, unless live |
| `PulseLaws.WindowIsExact` | doover/src/docker/platform.rs:1466-1473 | the window is the suffix of pulses less than its length before the last |
| `PulseLaws.RateExactly` | doover/src/docker/platform.rs:1477-1480 | the rate times the window is sixty times its pulses |
| `UiPositions.AssignPositionsDepthFirst` | doover/src/ui/mod.rs:108-114 | numbers a subtree and advances the counter by its size |
| `UiPositions.Finalize` | doover/src/ui/mod.rs:180-185 | numbers every top-level tree from one counter |
| `UiPositions.AllNumberedInOrder` | doover/src/ui/mod.rs:102-107 | the n-th element in post-order without a position gets 50 + n; declared positions and the tree stay |
| `UiPositions.FinalizeNumbersFrom51` | doover/src/ui/mod.rs:168-185 | `finalize` numbers the n-th element in post-order 50 + n, if it declares no position |
| `UiPositions.AssignedNumbersGrow` | doover/src/ui/mod.rs:168-173 | numbers given out are distinct and grow along the post-order |
| `UiPositions.FinalizeIsIdempotent` | doover/src/ui/mod.rs:173-185 | finalizing twice is finalizing once |
| `LegacyStruct.RoundTripExactly` | doover/src/docker/legacy_struct.rs:55-101 | the round trip is the identity if and only if integers are within 2^53 and doubles are not whole numbers within it |
| `LegacyStruct.RoundTripIdempotent` | doover/src/docker/legacy_struct.rs:77-101 | a second round trip changes nothing more, on every value |
| `LegacyStruct.KindsAreKept` | doover/src/docker/legacy_struct.rs:55-90 | each kind of value has its own on the wire, a wire value of no kind reads as null, and what is not an object becomes an empty Struct |
| `LegacyStruct.WireMode.Observe` | doover/src/docker/legacy_struct.rs:30-44 | learns from a response that says anything |
| `LegacyStruct.StructsStopExactly` | doover/src/docker/legacy_struct.rs:22-37 | after any responses `send_struct` is false if and only if the last informative one carried JSON |

## Left out

- Object key order: objects are finite maps, so emission order and the order of loops over keys are free.
- IEEE rounding: numbers are exact integers and reals; comparing a 64-bit integer with a float goes through a double in the source. The Struct codec takes the rounding of integers as a parameter that is exact up to 2^53; NaN, infinities and counter overflow are not modelled.
- Live tags, observation claims, aggregate max-age and `log_history`: they read the same view and write no modelled state.
- Failed calls inside a run: runs of the tag runtime take every call to succeed, as a failure ends the run; the methods and functions keep both outcomes.
- Sets interleaved with an await inside a flush, and retries of a failed flush within one run: a critical section and the call around it are one step.
- TagPlacement.PlacementIsInvisible: is about plain values of the tag itself, set one tag at a time; not about syncs, which are ordered against commits, nor about object values of the tag, whose skip test can tell a null entry from a missing one.
- The tag subscription list is a parameter of `OnTagUpdate`; a callback is a recorded call, and what it does is not modelled.
- Sharing: JSON values, trigger sets and UI trees are held by value and rebuilt, not mutated through shared references; so aliasing between them is not modelled.
- `validate_log_on` and the panics of trigger construction other than the empty threshold list.
- Rpc.Manager.OnStatus: the gate check and the write that follows it are one step, so a cancellation landing between them is not modelled.
- RpcLaws.CallResolvesOnce: an id is either a call's or a request's, and `pending` is filled before its first update arrives.
- Message ids are dated by a parameter, not decoded; clocks are parameters everywhere. Channel subscriptions, `send_with` and `fire_and_forget` register nothing and are not modelled.
- Element schemas: an element's own schema is a parameter, read only for the keywords the compiler emits around it; types, bounds, titles and nested emission (the same function at the next level) are not modelled.
- ConfigLaws.LoaderAgreesExactly: is about the not-found error; conversion of a present value is a parameter.
- Processor runs take place after the seed is read; retries, subscriptions, other writers and the other steps of an invocation are not modelled.
- The pulse listener's stream, the system-event callback and pin numbers.
- `decode` of `data_json` text, and the atomic ordering of the wire mode.
- gRPC and HTTP transport, reconnects and cache seeding, timers, health checks, Lambda wiring, derive macros, the CLI, notifications and typed events.
