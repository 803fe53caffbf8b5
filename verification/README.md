# Verified models of the dashboard runtimes and build scripts

The repository's asynchronous runtimes have to stay correct under every interleaving of user
actions, timers, late answers and failures. Each of them is modelled as a state, a set of atomic
steps (a step never reaches across an `await` at which shared state could change), an inductive
invariant, and lemmas over whole runs; the objects whose methods update fields are also written as
classes whose methods are proved to take exactly those steps. The transformations are proved against independent definitions: two readers for the
command-line printer, paths for the reachability worklist, "prefix, gaps and middles, suffix" for the
template matcher, a cold load for the hash router, unbounded memory for the log follower.

| module | what it models |
|---|---|
| `ResourcePolicy`, `ResourceAttempts`, `ResourceStore`, `ResourceRuns`, `ResourceLoads` | one keyed dashboard resource: snapshots, attempts, watchers, steps, what every run keeps, and when it loads and what it then shows |
| `ResourceTable`, `ClientResource` | the table of resources with its page listener; the `Resource` and runtime objects |
| `PoolSettings`, `PoolRotation` | account-pool rotation values, the reducer, and its read/write protocol against the listener |
| `CdpSession` | the CDP request registry and the session over it |
| `BrowserLease`, `EvidenceRun`, `EvidenceFleet` | the browser profile lease and shutdown; the overall deadline and evidence retention; any number of runners over one profile |
| `AuthRecovery` | recovery from 401 answers shared by concurrent calls |
| `WinExec` | the Windows command-line printer and its readers |
| `ModuleGraph`, `TemplateMatch` | runtime module reachability and template-key matching of the i18n scripts |
| `HashRouting` | hash resolution and rewriting |
| `LogFollow` | the bounded deduplication of `observe logs --follow` |

Where the code and a natural reading of it differ, the code is modelled and the difference is a lemma:

- `refreshing` should mean "an attempt is in flight". A loader that fulfils after its own deadline
  aborted it leaves the flag set with nothing in flight (`ResourceRuns.LateFulfilmentSticks`); that
  settlement is the only step that does so (`ResourceRuns.RefreshingStaysExact`).
- The session object may be shut down or terminated more than once. Two releases of one lease that
  have both read its marker are unsafe: the second unlink can remove a later run's file, and two owned
  browsers run (`BrowserLease.OverlappingReleasesBreak`). That overlap is exactly what is unsafe
  (`BrowserLease.OverlapIsExact`); the runner's one shutdown per session rules it out
  (`EvidenceFleet.RunnersShareOneBrowser`).
- The write path takes a transport failure for a write that was not applied
  (gui/src/account-pool-strategy.ts:128-133). Every write the controls send asks for something other than the
  confirmed values, so when an obedient listener applied it and only the answer was lost, the
  controls always roll back to values it no longer stores (`PoolRotation.LostAnswerLeadsAstray`). They
  come back exactly at the next adopted read, answered write or fresh seed, and not at a refused write
  (`PoolRotation.AstrayOverRuns`).
- The seed from the pool's memory is stamped with the current revision, so an outdated payload is
  adopted. It keeps the agreement when no write was applied since it was sampled and breaks it when
  exactly one was (`PoolRotation.SeedAgreesWhileFresh`; a concrete run is `PoolRotation.OldSeedReverts`).
- A write reads `saving` from a mirror. Two writes begun before the mirror is updated leave the
  revision odd with nothing in flight (`PoolRotation.OutdatedFlagBreaksParity`); the protocol below
  assumes the newest flag.
- The printer guards what cmd.exe acts on except tab, equals sign and line feed. Arguments survive tabs
  and equals signs; a line feed anywhere, or one of the three in the batch file's name, is exactly
  what the command line does not carry (`WinExec.CommandLineRoundTrip`).
- A hash rewrite is usually final. Exactly the integrations hashes with a query that become harness
  hashes need a second one (`HashRouting.SecondRewriteExactly`).

`dafny verify dfyconfig.toml` checks the whole project. Nothing was executed.

## Model

| member | source | states |
|---|---|---|
| `ResourcePolicy.InFlight` | gui/src/client-resource-policy.ts:60-69 | opening an attempt keeps the last good data and success flag while refreshing |
| `ResourcePolicy.NormalizeLoadError` | gui/src/client-resource-policy.ts:75-77 | a failure always carries a reason |
| `ResourcePolicy.CommitFetch` | gui/src/client-resource-policy.ts:92-134 | only a current, unaborted attempt's fulfilled value is a success, with exactly that value; a failure never touches the data or the success flag; both end loading and refreshing |
| `ResourceAttempts.AtMostOneLive` | gui/src/client-resource.ts:357-370 | under the invariant, only the current attempt can be unaborted |
| `ResourceAttempts.ReplaceKeepsOneLive` | gui/src/client-resource.ts:333-370 | aborting and reopening keeps "one live attempt, under the store's epoch" |
| `ResourceAttempts.OpenKeepsOneLive` | gui/src/client-resource.ts:357-370 | opening with nothing current keeps it |
| `ResourceAttempts.DropKeepsOneLive` | gui/src/client-resource.ts:321-331 | abandoning under a new epoch keeps it |
| `ResourceAttempts.RetireKeepsOneLive` | gui/src/client-resource.ts:205-209 | abandoning on eviction, without a new epoch, keeps it |
| `ResourceAttempts.ExpireKeepsOneLive` | gui/src/client-resource.ts:361-364 | any attempt's deadline keeps it, abandoned attempts included |
| `ResourceAttempts.CloseKeepsOneLive` | gui/src/client-resource.ts:385-389 | closing any attempt, in any order, keeps it |
| `ResourceStore.SetWatcherIds` | gui/src/client-resource.ts:160-161 | joining adds exactly one membership |
| `ResourceStore.SetWatcherDistinct` | gui/src/client-resource.ts:160-161 | one record per subscriber after a join |
| `ResourceStore.RemoveWatcherIds` | gui/src/client-resource.ts:251-252 | leaving removes exactly one membership |
| `ResourceStore.RemoveWatcherDistinct` | gui/src/client-resource.ts:251-252 | one record per subscriber after a leave |
| `ResourceStore.SetWatcherKeepsOthers` | gui/src/client-resource.ts:160-161 | the joined record is there unchanged, in its old place or last, and every other record is kept in order |
| `ResourceStore.RemoveWatcherKeepsOthers` | gui/src/client-resource.ts:251-252 | leaving takes out one record and keeps the others unchanged and in order |
| `ResourceStore.FirstWatcherFinds` | gui/src/client-resource.ts:283-302 | a found watcher qualifies and watches; none found means none qualifies |
| `ResourceStore.PickWatcherFinds` | gui/src/client-resource.ts:290-302 | whoever is picked watches; a visible page with watchers always has someone, a hidden one exactly when a polling watcher opted out |
| `ResourceStore.FirstWatcherIsFirst` | gui/src/client-resource.ts:283-302 | nobody who joined before the found watcher qualifies |
| `ResourceStore.PickWatcherPicks` | gui/src/client-resource.ts:290-302 | a visible page picks the earliest polling watcher, or the earliest of all when nobody polls; a hidden one the earliest that opted out |
| `ResourceStore.FastestPollIsLeast` | gui/src/client-resource.ts:274-281 | the cadence is somebody's positive interval and the least of them, or nobody polls |
| `ResourceRuns.StepKeepsInv` | gui/src/client-resource.ts:160-389 | every step of join, leave, publish, seed, reload, tick, visibility, deadline, settle and evict keeps the attempt and watcher invariants |
| `ResourceRuns.RunKeepsInv` | gui/src/client-resource.ts:160-389 | over every run at most one attempt is live, it is the current one, and its epoch is the store's |
| `ResourceRuns.SettleIsCurrent` | gui/src/client-resource.ts:372-389 | a settlement paints only the live current attempt's own value; otherwise data and success flag are untouched |
| `ResourceRuns.CommitIsCurrent` | gui/src/client-resource.ts:160-389 | every commit is of the epoch current at that moment and is what the screen then shows |
| `ResourceRuns.PaintsInOrder` | gui/src/client-resource.ts:333-389 | over every run the painting epochs strictly increase and the screen shows exactly the last painted value |
| `ResourceRuns.LastGoodDataSurvives` | gui/src/client-resource-policy.ts:92-134 | from a fresh resource, success holds exactly when something was committed, and the data is the most recent commit or publish |
| `ResourceRuns.OwnerAbortPaintsNothing` | gui/src/client-resource-policy.ts:79-90 | the null an owner abort resolves to is never stored |
| `ResourceRuns.EvictedPaintsNothing` | gui/src/client-resource.ts:405-413 | leftovers of an evicted resource never paint |
| `ResourceRuns.RefreshingStaysExact` | gui/src/client-resource.ts:372-389 | `refreshing` keeps meaning "a current attempt exists" at a step if and only if the step is not a fulfilment after the deadline |
| `ResourceRuns.RefreshingExactOverRuns` | gui/src/client-resource.ts:333-389 | over every run without such a fulfilment, until eviction, the flag is exact |
| `ResourceRuns.LateFulfilmentSticks` | gui/src/client-resource-policy.ts:121-124 | a concrete run in which a fulfilment after the deadline leaves the flag set with no attempt |
| `ResourceRuns.LeaveHandsOver` | gui/src/client-resource.ts:251-272 | a leave keeps "the attempt's owner is watching" |
| `ResourceRuns.OwnersStayWatching` | gui/src/client-resource.ts:160-355 | every step keeps it when reloads come from watchers |
| `ResourceRuns.OwnersWatchingOverRuns` | gui/src/client-resource.ts:321-355 | over every such run an in-flight attempt's owner is a current watcher |
| `ResourceRuns.OwnerLeavesOthersWatch` | gui/src/client-resource.ts:251-272 | when the owner leaves others behind its attempt is aborted, and a live one owned by a remaining watcher is open at once exactly when the page is visible or someone opted out |
| `ResourceRuns.PollsNeverInterrupt` | gui/src/client-resource.ts:231-355 | a tick, a catch-up and a visibility change never touch an attempt in flight |
| `ResourceRuns.IdlePollAsks` | gui/src/client-resource.ts:304-313 | with nothing in flight a tick opens a fresh attempt owned by a watcher exactly when the page is visible and watched or someone opted out |
| `ResourceRuns.ReloadReplaces` | gui/src/client-resource.ts:194-203 | a reload aborts what was in flight and leaves a fresh live attempt of its owner current |
| `ResourceRuns.PublishThenJoin` | gui/src/client-resource.ts:174-187 | data published while nobody watched is shown to the first subscriber and revalidated at once |
| `ResourceRuns.SeedThenJoin` | gui/src/client-resource.ts:435-442 | a seed spares the first subscriber its opening load exactly while it is fresh |
| `ResourceLoads.AskLoads` | gui/src/client-resource.ts:333-370 | an ask that is not skipped opens one live attempt of its owner under its deadline or 30 s, refreshing, and loading when there is nothing to show or it was forced |
| `ResourceLoads.JoinLoadsExactly` | gui/src/client-resource.ts:160-172 | a join loads for the joiner if and only if it is alone and the data is absent, put there unseen, or older than it accepts; otherwise attempts and screen are untouched |
| `ResourceLoads.FirstSubscriberLoads` | gui/src/client-resource.ts:243-249 | the first subscriber of an unused resource always has a load of its own under way |
| `ResourceLoads.ReloadLoads` | gui/src/client-resource.ts:194-203 | a reload loads for its owner, under the owner's deadline as a watcher, else the caller's |
| `ResourceLoads.TickLoadsForPicked` | gui/src/client-resource.ts:304-313 | an idle tick loads for exactly the watcher to be asked for |
| `ResourceLoads.ShownPageLoads` | gui/src/client-resource.ts:231-241 | a page that shows again loads an idle key exactly when somebody polls it, for the earliest who does |
| `ResourceLoads.OtherLeaverKeepsAttempt` | gui/src/client-resource.ts:251-272 | a leaver who does not own the attempt in flight leaves it and the screen alone |
| `ResourceLoads.LoadedIsShown` | gui/src/client-resource.ts:372-389 | a load that came in before its deadline is shown, and nothing else is |
| `ResourceLoads.FailureIsShown` | gui/src/client-resource-policy.ts:103-134 | a failed load is shown with its reason beside the last good data |
| `ResourceLoads.TimeoutIsShown` | gui/src/client-resource-policy.ts:79-134 | a load whose deadline passed first shows the timeout beside the last good data |
| `ResourceLoads.AbandonedShowsNothing` | gui/src/client-resource.ts:372-389 | an attempt that is no longer current shows nothing when it settles |
| `ResourceLoads.LoadThenJoin` | gui/src/client-resource.ts:243-249 | loaded data spares a later first subscriber its load exactly while it is young enough |
| `ResourceLoads.PublishedIsShown` | gui/src/client-resource.ts:174-187 | published data replaces whatever was shown, errors included, and is unchecked exactly when nobody watched |
| `ResourceLoads.EvictedStops` | gui/src/client-resource.ts:205-209 | a dropped resource has no timer and no live attempt |
| `ResourceTable.TunedMeans` | gui/src/client-resource.ts:211-229 | the tuned timer is exactly the declarative one: runs if and only if someone polls and the page is visible or a polling watcher opted out, at the least positive interval |
| `ResourceTable.JoinOrLeaveTunes` | gui/src/client-resource.ts:160-272 | joining and leaving end with a tuned timer and unbind the listener only when the key stops polling |
| `ResourceTable.StepKeepsTuning` | gui/src/client-resource.ts:304-389 | no other step of a resource touches its watchers or its timer |
| `ResourceTable.UnheardVisibility` | gui/src/client-resource.ts:85-107 | with no listener bound a visibility change leaves every timer right |
| `ResourceTable.EvictionKeepsTableInv` | gui/src/client-resource.ts:405-413 | evicting an unwatched key keeps the table invariant, listener included |
| `ResourceTable.TableStepKeepsInv` | gui/src/client-resource.ts:85-272 | every step of the whole table keeps every key tuned and single-flight, and the listener bound exactly when some key polls |
| `ResourceTable.TableRunKeepsInv` | gui/src/client-resource.ts:85-272 | the same over every run |
| `ResourceTable.PollingFollowsWatchers` | gui/src/client-resource.ts:85-272 | from an empty table, over every run, each key's timer runs when and as fast as its watchers ask and the listener is bound exactly when some watcher polls |
| `ResourceTable.EvictionDropsUnwatched` | gui/src/client-resource.ts:405-413 | an eviction timer drops exactly its own key, and only while nobody watches it |
| `ResourceTable.OtherKeysUntouched` | gui/src/client-resource.ts:396-403 | a step on one key makes it if need be and leaves every other key as it was |
| `ResourceTable.ShownPageLoadsEveryKey` | gui/src/client-resource.ts:85-96 | when the page shows again every idle polled key loads for one of those who poll it |
| `ResourceTable.HiddenPageStartsNothing` | gui/src/client-resource.ts:85-96 | a page that hides starts no load anywhere |
| `ClientResource.Resource.constructor` | gui/src/client-resource.ts:109-122 | a new object is the fresh resource of the model |
| `ClientResource.Resource.FastestPoll` | gui/src/client-resource.ts:274-281 | the loop finds the model's cadence |
| `ClientResource.Resource.FirstWatcher` | gui/src/client-resource.ts:283-302 | the early-return search finds the first qualifying watcher in joining order |
| `ClientResource.Resource.PickWatcher` | gui/src/client-resource.ts:290-302 | the two searches pick the model's watcher |
| `ClientResource.Resource.OpenAttempt` | gui/src/client-resource.ts:357-370 | the new attempt takes the next epoch, is current and live; nothing else changes |
| `ClientResource.Resource.Ask` | gui/src/client-resource.ts:333-343 | the part before the await is the model's step, skipped when quiet and already in flight |
| `ClientResource.Resource.RetunePulse` | gui/src/client-resource.ts:211-229 | the timer becomes the model's cadence and the listener action is the model's |
| `ClientResource.Resource.Join` | gui/src/client-resource.ts:160-172 | takes exactly the join step |
| `ClientResource.Resource.CancelOwnedBy` | gui/src/client-resource.ts:321-331 | abandons exactly the departing owner's attempt and reports whether it did |
| `ClientResource.Resource.Leave` | gui/src/client-resource.ts:251-272 | takes exactly the leave step, although membership is removed before the attempt is cancelled |
| `ClientResource.Resource.Publish` | gui/src/client-resource.ts:174-187 | takes exactly the publish step |
| `ClientResource.Resource.SeedVacant` | gui/src/client-resource.ts:435-442 | takes exactly the seed step, a no-op unless vacant |
| `ClientResource.Resource.Reload` | gui/src/client-resource.ts:194-203 | takes exactly the reload step with the watcher's own deadline first |
| `ClientResource.Resource.CatchUp` | gui/src/client-resource.ts:231-241 | takes exactly the catch-up step |
| `ClientResource.Resource.QuietTick` | gui/src/client-resource.ts:304-313 | takes exactly the tick step |
| `ClientResource.Resource.DeadlineFires` | gui/src/client-resource.ts:361-364 | marks the attempt timed out; only a first abort gets the deadline as its cause |
| `ClientResource.Resource.Settle` | gui/src/client-resource.ts:372-389 | takes exactly the settle-then-close step |
| `ClientResource.Resource.AbortOwned` | gui/src/client-resource.ts:205-209 | takes exactly the eviction step |
| `ClientResource.Runtime.ResourceOf` | gui/src/client-resource.ts:396-403 | finds or makes the key's resource and changes no other entry |
| `ClientResource.Runtime.UnbindPageIfIdle` | gui/src/client-resource.ts:98-107 | the listener stays bound exactly when some key polls |
| `ClientResource.Runtime.Subscribe` | gui/src/client-resource.ts:525-530 | joining through the table is the table's step, every other key untouched |
| `ClientResource.Runtime.Unsubscribe` | gui/src/client-resource.ts:251-272 | leaving is the table's step while the table holds the closure's resource, and leaves the table's entries alone once it does not |
| `ClientResource.Runtime.EvictionTimer` | gui/src/client-resource.ts:405-413 | the deferred eviction is the table's step, a no-op once someone watches again |
| `ClientResource.Runtime.VisibilityChange` | gui/src/client-resource.ts:85-96 | the handler's loop, in any order of keys, is the table's visibility step |
| `PoolSettings.NormalizeStrategy` | gui/src/account-pool-strategy.ts:47-50 | a known spelling is itself, anything else the default |
| `PoolSettings.NormalizeResetOrder` | gui/src/account-pool-strategy.ts:52-55 | a known spelling is itself, anything else the default |
| `PoolSettings.NormalizeStickyLimit` | gui/src/account-pool-strategy.ts:57-60 | a whole number in range is itself; the result is in range, and different from the default only if it was the value |
| `PoolSettings.ReadBack` | gui/src/codex-pool-rotation-machine.ts:40-52 | reading a complete payload gives back exactly the rotation it reports |
| `PoolSettings.StoredIsRead` | gui/src/account-pool-strategy.ts:119-126 | a truthful answer, with any fields left out, gives back exactly what was stored |
| `PoolSettings.DraftRoundTrip` | gui/src/account-pool-strategy.ts:69-74 | the text written for a limit parses back to it, with any white space around it |
| `PoolSettings.ParseDraftIsExact` | gui/src/account-pool-strategy.ts:69-74 | a draft is taken as a limit if and only if it is digits of that value, 1 to 100, with only white space around them |
| `PoolRotation.GestureEffect` | gui/src/codex-pool-rotation-machine.ts:343-369 | a gesture starts one write or changes only the draft, and touches neither confirmed values nor reads |
| `PoolRotation.ChosenStrategyIsSent` | gui/src/codex-pool-rotation-machine.ts:343-350 | choosing a strategy sends and shows it with the visible limit and order if and only if it differs; nothing else changes |
| `PoolRotation.ChosenOrderIsSent` | gui/src/codex-pool-rotation-machine.ts:351-355 | choosing an order sends and shows it with the visible strategy and limit if and only if it differs |
| `PoolRotation.CommittedLimitIsSent` | gui/src/codex-pool-rotation-machine.ts:357-369 | committing a text sends its limit with the visible strategy and order if it reads as another limit, tidies the draft if it reads as the same, and restores it with an error if it reads as none |
| `PoolRotation.LockedControlsDoNothing` | gui/src/codex-pool-rotation-machine.ts:106-108 | locked controls change nothing |
| `PoolRotation.LockedExactly` | gui/src/codex-pool-rotation-machine.ts:106-108 | controls are locked exactly while a write is in flight or nothing has been read |
| `PoolRotation.FailedReadShowsWhileCold` | gui/src/codex-pool-rotation-machine.ts:142-146 | a failed read shows only on controls that were never read, and changes nothing else |
| `PoolRotation.StepKeepsReadable` | gui/src/codex-pool-rotation-machine.ts:131-182 | controls that were read never report a failed read |
| `PoolRotation.TypedIsShown` | gui/src/codex-pool-rotation-machine.ts:356-356 | typing changes the draft alone |
| `PoolRotation.RememberedIsTheAnswer` | gui/src/hooks/useCodexAccountPool.ts:168-168 | the pool remembers the answer it has, and nothing else changes |
| `PoolRotation.AcceptedGestureApplies` | gui/src/codex-pool-rotation-machine.ts:309-369 | whatever happens meanwhile, a gesture answered by an obedient listener ends with exactly what it asked for stored, confirmed and visible |
| `PoolRotation.StepKeepsBaseInv` | gui/src/codex-pool-rotation-machine.ts:131-182 | every step keeps "saving exactly at odd revisions, visible equals confirmed between writes, and adoptable reads and answers given since the last write carry what is stored now" |
| `PoolRotation.BaseInvOverRuns` | gui/src/codex-pool-rotation-machine.ts:256-332 | the same over every run, lost answers and outdated seeds included |
| `PoolRotation.AdoptedReadAgrees` | gui/src/codex-pool-rotation-machine.ts:256-274 | an adopted read brings the controls to exactly the stored values, whatever happened before |
| `PoolRotation.AdoptedReadUnlocks` | gui/src/codex-pool-rotation-machine.ts:111-121 | an adopted read unlocks the controls, clears the error and leaves a draft that reads as the stored limit |
| `PoolRotation.StepKeepsAgreement` | gui/src/codex-pool-rotation-machine.ts:131-182 | every step but a lost answer and an outdated seed keeps client and listener in agreement |
| `PoolRotation.AgreementOverRuns` | gui/src/codex-pool-rotation-machine.ts:256-332 | over every interleaving of delayed, reordered and lagging-stamped reads with accepted and refused writes and fresh seeds, hydrated and not saving implies confirmed, visible and stored are equal; saving holds exactly at odd revisions |
| `PoolRotation.MountedHolds` | gui/src/codex-pool-rotation-machine.ts:81-91 | the initial state satisfies every invariant the run lemmas start from |
| `PoolRotation.FreshSeedAgrees` | gui/src/codex-pool-rotation-machine.ts:276-292 | adopting a payload sampled since the last applied write brings the controls to exactly the stored values |
| `PoolRotation.SeedAgreesWhileFresh` | gui/src/codex-pool-rotation-machine.ts:276-292 | over every undisturbed run against an obedient listener, adopting the remembered payload keeps the agreement if no write was applied since it was sampled and breaks it if exactly one was |
| `PoolRotation.OldSeedReverts` | gui/src/codex-pool-rotation-machine.ts:276-292 | a concrete run in which an accepted write is followed by a seed that reverts the controls |
| `PoolRotation.GestureAsksForChange` | gui/src/codex-pool-rotation-machine.ts:343-369 | a gesture sends a write only for values other than the confirmed ones |
| `PoolRotation.RequestOverRuns` | gui/src/codex-pool-rotation-machine.ts:309-369 | over every run, lost answers included, the write in flight asks for a change, and an obedient listener stored that or nothing |
| `PoolRotation.LostAnswerLeadsAstray` | gui/src/account-pool-strategy.ts:134-149 | over every run against an obedient listener, losing the answer to an applied write always breaks the agreement |
| `PoolRotation.LostAnswerDisagrees` | gui/src/account-pool-strategy.ts:134-149 | a concrete run in which it does |
| `PoolRotation.AstrayUntilRepaired` | gui/src/codex-pool-rotation-machine.ts:131-182 | a step brings confirmed values that went astray back if and only if it adopts a read or a fresh seed or answers a write, and then restores the whole agreement |
| `PoolRotation.AstrayOverRuns` | gui/src/codex-pool-rotation-machine.ts:256-332 | over every run they stay astray through gestures, outdated reads, refused writes and further lost answers until the first such step |
| `PoolRotation.OutdatedFlagBreaksParity` | gui/src/codex-pool-rotation-machine.ts:309-312 | two writes begun under an outdated `saving` leave the revision odd with nothing in flight and confirm the value answered last |
| `PoolRotation.WriteInFlightHoldsOverRuns` | gui/src/codex-pool-rotation-machine.ts:131-182 | until a write settles nothing moves confirmed or the revision, and a read is held exactly when one of the current revision landed or was held before |
| `PoolRotation.RefusedWriteRestores` | gui/src/codex-pool-rotation-machine.ts:309-332 | whatever happens during a refused write, the controls end at exactly the values before the gesture and the listener stores what it stored then |
| `PoolRotation.HeldReadIsReplayedOnce` | gui/src/codex-pool-rotation-machine.ts:302-307 | between writes a held read is owed or replayed, never both, never twice |
| `PoolRotation.OneReplayPerWrite` | gui/src/codex-pool-rotation-machine.ts:302-332 | any number of current-revision reads and seeds landing during one write cause exactly one re-read after it, and none cause none |
| `PoolRotation.ReplayStartsRead` | gui/src/codex-pool-rotation-machine.ts:302-307 | a replay is a new request under its stamp, and pays the debt |
| `PoolRotation.StickyCommitPlans` | gui/src/codex-pool-rotation-machine.ts:195-200 | a commit writes only a valid limit that differs, changes nothing else, and a rewritten draft parses to the same limit |
| `PoolRotation.RotationBinding.constructor` | gui/src/codex-pool-rotation-machine.ts:247-254 | a new binding is the mounted system |
| `PoolRotation.RotationBinding.Reload` | gui/src/codex-pool-rotation-machine.ts:263-274 | takes exactly the start-read step |
| `PoolRotation.RotationBinding.AcceptRead` | gui/src/codex-pool-rotation-machine.ts:256-261 | takes exactly the arrival step, a payload without rotation included |
| `PoolRotation.RotationBinding.SeedFromLast` | gui/src/codex-pool-rotation-machine.ts:276-292 | takes exactly the seed step |
| `PoolRotation.RotationBinding.RejectRead` | gui/src/codex-pool-rotation-machine.ts:270-272 | takes exactly the read-failure step |
| `PoolRotation.RotationBinding.BeginWrite` | gui/src/codex-pool-rotation-machine.ts:309-314 | starts a write unless one is in flight |
| `PoolRotation.RotationBinding.ChooseStrategy` | gui/src/codex-pool-rotation-machine.ts:343-350 | takes exactly the gesture's step |
| `PoolRotation.RotationBinding.ChooseResetOrder` | gui/src/codex-pool-rotation-machine.ts:351-355 | takes exactly the gesture's step |
| `PoolRotation.RotationBinding.CommitSticky` | gui/src/codex-pool-rotation-machine.ts:357-369 | takes exactly the commit step, on the draft when no text is given |
| `PoolRotation.RotationBinding.EndWrite` | gui/src/codex-pool-rotation-machine.ts:313-331 | ends the write, answered or failed, under a new revision and with nothing in flight |
| `PoolRotation.EndedIsStep` | gui/src/codex-pool-rotation-machine.ts:313-331 | that end is the protocol's answered, refused or lost step, whichever way the listener handled the write |
| `PoolRotation.RotationBinding.ReplayHeld` | gui/src/codex-pool-rotation-machine.ts:302-307 | replays exactly when a read is held and no write is in flight |
| `BrowserLease.StepKeepsBaseInv` | scripts/evidence-browser-runtime.ts:226-365 | every step, however often and concurrently sessions are shut down, keeps "the lease names exactly the run that holds it, calls past a known death own no process, released runs are dead" |
| `BrowserLease.ReleasedStaysDead` | scripts/evidence-browser-runtime.ts:261-270 | over every run a released session never owns a process again |
| `BrowserLease.StepKeepsInv` | scripts/evidence-browser-runtime.ts:226-365 | every step from a state without overlapping releases also keeps "an unlink in flight is aimed at its own file, and a file goes only after its process died" |
| `BrowserLease.RunKeepsInv` | scripts/evidence-browser-runtime.ts:226-365 | the same over every interleaving of any number of runs and calls, up to the first overlap |
| `BrowserLease.AtMostOneBrowser` | scripts/evidence-browser-runtime.ts:226-365 | over every interleaving, any number of shutdowns and terminations per session and any failures, while no session has two releases past their marker reads at most one owned browser runs and the lease names it |
| `BrowserLease.RemovedOnlyWhenDead` | scripts/evidence-browser-runtime.ts:261-270 | without an overlap a lease leaves the disk only by its owner's unlink, with its process dead |
| `BrowserLease.OverlapBreaks` | scripts/evidence-browser-runtime.ts:261-270 | from every overlap two unlinks let two new runs start and two owned browsers run |
| `BrowserLease.OverlapIsExact` | scripts/evidence-browser-runtime.ts:261-270 | two owned browsers can come to run without a further marker read if and only if two releases of one session overlap |
| `BrowserLease.OverlapIsExactOverRuns` | scripts/evidence-browser-runtime.ts:226-365 | the same of every state a run reaches, its first overlap included |
| `BrowserLease.OverlappingReleasesBreak` | scripts/evidence-browser-runtime.ts:334-337 | the concrete interleaving: one session terminated twice at once, its two unlinks around the start of a second run, then a third |
| `BrowserLease.Shutdown` | scripts/evidence-browser-runtime.ts:274-363 | the lease is released exactly when the process is known dead, and the result tells graceful from forced from failed |
| `BrowserLease.ShutdownStepsAgree` | scripts/evidence-browser-runtime.ts:338-363 | the sequential shutdown and the interleaved steps reach release in exactly the same outcomes, the process dead exactly then, to rethrow exactly when the close failed |
| `BrowserLease.ReleaseCompletes` | scripts/evidence-browser-runtime.ts:261-270 | a release on its own lease frees it and sets the flag, and the call succeeds unless it has an error to rethrow |
| `BrowserLease.ReleasedAgainDoesNothing` | scripts/evidence-browser-runtime.ts:261-262 | releasing again once the flag is set ends at once and leaves the file to whoever has it |
| `BrowserLease.FailedStartReleases` | scripts/evidence-browser-runtime.ts:316-326 | a start that fails goes on to free its own lease and rethrows |
| `BrowserLease.KnownDeathReleases` | scripts/evidence-browser-runtime.ts:338-363 | a shutdown that learns of the death frees the lease and succeeds unless the close had failed |
| `BrowserLease.StartsOnFreeLease` | scripts/evidence-browser-runtime.ts:305-326 | a run that finds the lease free takes it and starts its browser |
| `BrowserLease.AutomationProfile.constructor` | scripts/evidence-browser-runtime.ts:226-245 | a new profile root has no lease, no runs and no calls |
| `BrowserLease.AutomationProfile.Acquire` | scripts/evidence-browser-runtime.ts:246-254 | takes exactly the acquire step and reports whether the lease was free |
| `BrowserLease.AutomationProfile.OnStart` | scripts/evidence-browser-runtime.ts:315-326 | takes exactly the step of a start that succeeded or failed |
| `BrowserLease.AutomationProfile.BeginShutdown` | scripts/evidence-browser-runtime.ts:338-346 | takes exactly the step that begins a shutdown, on any started session |
| `BrowserLease.AutomationProfile.TerminateBeforeCdp` | scripts/evidence-browser-runtime.ts:334-337 | takes exactly the step that begins a termination, on any started session |
| `BrowserLease.AutomationProfile.OnClose` | scripts/evidence-browser-runtime.ts:281-286 | takes exactly the close-answered step |
| `BrowserLease.AutomationProfile.OnTermination` | scripts/evidence-browser-runtime.ts:350-353 | takes exactly the termination-answered step |
| `BrowserLease.AutomationProfile.Release` | scripts/evidence-browser-runtime.ts:261-263 | takes exactly the step up to the marker read; a set flag ends the call |
| `BrowserLease.AutomationProfile.OnMarker` | scripts/evidence-browser-runtime.ts:263-267 | takes exactly the marker-read step; another run's marker fails the call |
| `BrowserLease.AutomationProfile.OnUnlink` | scripts/evidence-browser-runtime.ts:268-268 | takes exactly the unlink step, on whatever file is there by then |
| `BrowserLease.AutomationProfile.OnReleased` | scripts/evidence-browser-runtime.ts:268-270 | takes exactly the step that sets the flag |
| `EvidenceRun.StepKeepsInv` | scripts/evidence-browser-runner.ts:336-386 | every step keeps the settlement, time and work invariants, and a settled result stays |
| `EvidenceRun.RunKeepsInv` | scripts/evidence-browser-runner.ts:336-386 | the same over every run |
| `EvidenceRun.EvidenceRemovedOnlyAfterCleanRun` | scripts/evidence-browser-runner.ts:336-386 | evidence is removed only if the task fulfilled, the shutdown succeeded and the deadline had not fired; shutdown starts at most once |
| `EvidenceRun.OuterSettlesOnceInTime` | scripts/evidence-browser-runtime.ts:385-446 | the outer result settles at most once, by the deadline or by deadline plus teardown bound when it fired, and has settled once that time is past |
| `EvidenceRun.NeverStuck` | scripts/evidence-browser-runtime.ts:398-445 | a pending run always has a timer or the clock to move it, whatever the task and teardown do |
| `EvidenceRun.DeliveredVerdict` | scripts/evidence-browser-runner.ts:346-378 | a result delivered before the deadline is a success if and only if task and shutdown both succeeded |
| `EvidenceRun.SettledTaskGoesOn` | scripts/evidence-browser-runner.ts:346-372 | a settled task always has its shutdown or the next settlement on the way |
| `EvidenceRun.FiredRunRejects` | scripts/evidence-browser-runtime.ts:400-428 | a run whose deadline fired never resolves, and its teardown always has a next step |
| `EvidenceRun.TimersSettle` | scripts/evidence-browser-runtime.ts:400-428 | the deadline fires once and starts the teardown; whichever ends that rejects the run then and there |
| `EvidenceRun.BadBoundsReject` | scripts/evidence-browser-runtime.ts:391-396 | a run is rejected at once exactly when a bound is not positive |
| `EvidenceRun.CleanRunSucceeds` | scripts/evidence-browser-runner.ts:346-386 | a fulfilled task with a clean shutdown inside the deadline resolves and removes its evidence |
| `EvidenceRun.EvidenceRunner.constructor` | scripts/evidence-browser-runtime.ts:391-396 | a bound that is not positive rejects the run before anything is armed |
| `EvidenceRun.EvidenceRunner.ShutdownOnce` | scripts/evidence-browser-runner.ts:338-344 | the first caller asks for the shutdown, later callers share it |
| `EvidenceRun.EvidenceRunner.OnTaskSettled` | scripts/evidence-browser-runner.ts:346-372 | takes exactly the task-settled step |
| `EvidenceRun.EvidenceRunner.OnShutdownSettled` | scripts/evidence-browser-runner.ts:346-372 | takes exactly the work-settled step: both must succeed |
| `EvidenceRun.EvidenceRunner.OnOperation` | scripts/evidence-browser-runtime.ts:431-444 | takes exactly the delivery step, ignored once settled |
| `EvidenceRun.EvidenceRunner.OnDeadline` | scripts/evidence-browser-runtime.ts:400-404 | takes exactly the deadline step, ignored once settled |
| `EvidenceRun.EvidenceRunner.OnTimeout` | scripts/evidence-browser-runtime.ts:413-413 | takes exactly the teardown-start step |
| `EvidenceRun.EvidenceRunner.OnTeardownDone` | scripts/evidence-browser-runtime.ts:413-428 | takes exactly the teardown-done step, ignored after its timer |
| `EvidenceRun.EvidenceRunner.OnTeardownTimer` | scripts/evidence-browser-runtime.ts:405-411 | takes exactly the teardown-timer step, ignored after the teardown |
| `EvidenceRun.EvidenceRunner.RemoveScratch` | scripts/evidence-browser-runner.ts:374-386 | removes evidence only after the outer result resolved |
| `EvidenceFleet.StepKeepsInv` | scripts/evidence-browser-runner.ts:302-386 | every step of any runner, session or process keeps one call per session, and each run's record of its shutdown equal to what its session's call came to |
| `EvidenceFleet.RunKeepsInv` | scripts/evidence-browser-runner.ts:302-386 | the same over every run of any number of runners |
| `EvidenceFleet.ShutdownIsNeverBlocked` | scripts/evidence-browser-runner.ts:336-344 | the memoized shutdown always finds its session uncalled |
| `EvidenceFleet.RunnersShareOneBrowser` | scripts/evidence-browser-runner.ts:314-344 | over every run of any number of runners no releases overlap, at most one owned browser runs, and the lease names it |
| `EvidenceFleet.EvidenceRemovedMeansReleased` | scripts/evidence-browser-runner.ts:346-386 | evidence is removed only of a run whose browser is dead and whose lease was released |
| `EvidenceFleet.ShutdownEndsAsItsCall` | scripts/evidence-browser-runner.ts:338-344 | a run's shutdown succeeds exactly when its session's call did |
| `EvidenceFleet.DoneCallIsHandedOver` | scripts/evidence-browser-runner.ts:338-344 | a call that is done can always be handed to the run that waits for it |
| `EvidenceFleet.FailedConnectTerminates` | scripts/evidence-browser-runner.ts:314-334 | a runner that cannot connect terminates its session |
| `EvidenceFleet.ConnectedRunBegins` | scripts/evidence-browser-runner.ts:374-378 | a runner that connects begins its run under the bounds it was given |
| `CdpSession.SettleKeepsExactlyOnce` | scripts/cdp-request-registry.ts:69-85 | settling a pending request keeps "every issued id is pending or settled once, no other id is either" |
| `CdpSession.IssueKeepsExactlyOnce` | scripts/cdp-request-registry.ts:33-67 | issuing keeps it, a throwing send included |
| `CdpSession.RejectFromKeepsExactlyOnce` | scripts/cdp-request-registry.ts:87-94 | rejecting all keeps it and empties the map |
| `CdpSession.StepKeepsInv` | scripts/evidence-cdp-session.ts:24-84 | every event keeps exactly-once; a closed session does not change; ids only grow |
| `CdpSession.RunKeepsInv` | scripts/evidence-cdp-session.ts:24-84 | over every run each issued request is pending or settled exactly once, and a closed session has nothing pending for ever |
| `CdpSession.StrayMessageChangesNothing` | scripts/cdp-request-registry.ts:69-73 | a late or unknown message or timer changes nothing |
| `CdpSession.RequestTakesNewId` | scripts/cdp-request-registry.ts:43-66 | a request takes an id never pending or settled before |
| `CdpSession.StepSettles` | scripts/cdp-request-registry.ts:45-50 | an id never returns to pending, and leaves it at the first reply, timeout or session end |
| `CdpSession.SettlesOnlyItsOwn` | scripts/cdp-request-registry.ts:69-85 | a reply or a timer settles its own request with its own outcome and leaves every other one as it was |
| `CdpSession.EndingSettles` | scripts/cdp-request-registry.ts:45-94 | the event that ends a request settles it as promised: a result reply with its value, an error reply with its code, message and the request's name, a timer, or a closing with its own reason |
| `CdpSession.ClosingSettles` | scripts/evidence-cdp-session.ts:77-84 | closing settles every pending request with the reason of that closing |
| `CdpSession.FirstEndingDecides` | scripts/cdp-request-registry.ts:33-94 | over every run a request settles exactly once, as its first ending event promises |
| `CdpSession.NoAnswerChangesNothing` | scripts/evidence-cdp-session.ts:24-38 | other frames, other values and messages without an id change nothing |
| `CdpSession.IssuedRequestSettlesOnce` | scripts/cdp-request-registry.ts:33-94 | an issued request has settled exactly once in every run with such an event |
| `CdpSession.CdpRequestRegistry.Request` | scripts/cdp-request-registry.ts:33-67 | a bad timeout issues nothing; otherwise exactly the issue step |
| `CdpSession.CdpRequestRegistry.TimerFires` | scripts/cdp-request-registry.ts:45-50 | takes exactly the timeout step |
| `CdpSession.CdpRequestRegistry.ResolveMessage` | scripts/cdp-request-registry.ts:69-85 | takes exactly the delivery step and reports whether the id was pending |
| `CdpSession.CdpRequestRegistry.RejectAll` | scripts/cdp-request-registry.ts:87-94 | the loop rejects every pending request once, in issue order |
| `CdpSession.EvidenceCdpSession.constructor` | scripts/evidence-cdp-session.ts:48-57 | a new session is open with nothing pending |
| `CdpSession.EvidenceCdpSession.Request` | scripts/evidence-cdp-session.ts:63-71 | a closed session issues nothing; otherwise exactly the request step |
| `CdpSession.EvidenceCdpSession.OnMessage` | scripts/evidence-cdp-session.ts:24-38 | takes exactly the message step; broken JSON fails the session |
| `CdpSession.EvidenceCdpSession.OnClose` | scripts/evidence-cdp-session.ts:40-42 | takes exactly the close step |
| `CdpSession.EvidenceCdpSession.OnError` | scripts/evidence-cdp-session.ts:44-46 | takes exactly the error step |
| `CdpSession.EvidenceCdpSession.Dispose` | scripts/evidence-cdp-session.ts:73-75 | takes exactly the dispose step |
| `CdpSession.EvidenceCdpSession.Fail` | scripts/evidence-cdp-session.ts:77-84 | closes once and rejects everything pending; a second failure changes nothing |
| `CdpSession.OpenSession` | scripts/evidence-cdp-session.ts:48-57 | a session exists exactly when its timeout is a positive number |
| `AuthRecovery.StepKeepsInv` | gui/src/api.ts:184-254 | every step of any call or recovery keeps single flight and the send counts, and a dismissal is final |
| `AuthRecovery.RunKeepsInv` | gui/src/api.ts:184-254 | the same over every run |
| `AuthRecovery.RecoveryIsSingleFlight` | gui/src/api.ts:184-260 | from whatever session was installed, for any number of concurrent 401s at most one recovery is under way, at most one prompt open, none after a dismissal, and no call is sent more than three times |
| `AuthRecovery.NoPromptAfterDismissal` | gui/src/api.ts:184-223 | after a dismissal no run opens a prompt again |
| `AuthRecovery.WaitersAreServed` | gui/src/api.ts:200-223 | over every such run a waiting call waits on a settled recovery or on the shared one under way, never on an abandoned one |
| `AuthRecovery.UnauthorizedClearsOnlyItsOwn` | gui/src/api.ts:38-40 | an answer clears the vault exactly when it is a 401 for the credential stored now |
| `AuthRecovery.InterceptedIsSent` | gui/src/api.ts:248-252 | a call is first sent once, with the credential the vault holds |
| `AuthRecovery.FirstUnauthorized` | gui/src/api.ts:235-246 | a first 401 is raced with a newer credential, or waits on the one shared recovery, or ends if the caller gave up or a prompt was dismissed |
| `AuthRecovery.RacedUnauthorized` | gui/src/api.ts:229-239 | a raced 401 goes on to join |
| `AuthRecovery.JoinWaitsOrEnds` | gui/src/api.ts:212-223 | joining waits on the shared recovery, started if there is none, or ends |
| `AuthRecovery.NewRecoveryUsesTheVault` | gui/src/api.ts:184-187 | a recovery that starts beside another credential than the failed one gives that at once |
| `AuthRecovery.DeliveredIsResent` | gui/src/api.ts:243-246 | a waiting call is sent exactly once more with the token its recovery settled with, or ends without another send |
| `AuthRecovery.AnsweredIsDone` | gui/src/api.ts:229-254 | any answer but a recoverable 401 ends the call where it stands |
| `AuthRecovery.GivenUpIsDone` | gui/src/api.ts:200-210 | a call whose caller gave up or whose request failed ends without another send |
| `AuthRecovery.MintLeadsTo` | gui/src/api.ts:143-191 | a session page is stored whole and settles the recovery with its token, a refusal opens the prompt, any other failure settles it with nothing |
| `AuthRecovery.WatchdogLeadsToNothing` | gui/src/api.ts:176-190 | a watchdog that fires first settles the recovery with nothing and leaves its request outstanding |
| `AuthRecovery.LateSessionIsStored` | gui/src/api.ts:143-182 | a session that comes in after the watchdog is stored and settles nothing |
| `AuthRecovery.PromptLeadsTo` | gui/src/api.ts:191-197 | a prompted token is stored and settles the recovery; an empty answer settles it with nothing, for good |
| `AuthRecovery.ClearedMakesRoom` | gui/src/api.ts:215-221 | once a recovery has settled the next 401 starts a new one |
| `AuthRecovery.MintedCallIsResent` | gui/src/api.ts:184-246 | over every run after a session was minted, each call waiting on that recovery is sent once more with its token |
| `AuthRecovery.PromptedCallIsResent` | gui/src/api.ts:184-246 | the same of a token the operator entered |
| `AuthRecovery.WaiterStaysOverRuns` | gui/src/api.ts:200-210 | a waiting call goes on waiting until it is served or given up, whatever else happens |
| `AuthRecovery.UnauthorizedThenRenewed` | gui/src/api.ts:184-254 | over every run, a 401 followed by a renewal of the recovery it waits on ends in a second send with the credential the vault got |
| `AuthRecovery.CredentialVault.DropIfCurrent` | gui/src/api.ts:38-40 | clears all three fields only for the current credential |
| `AuthRecovery.CredentialVault.PutAdmin` | gui/src/api.ts:42-44 | replaces the secret and keeps the session values |
| `AuthRecovery.CredentialVault.PutSession` | gui/src/api.ts:46-52 | stores all three values exactly when the prefix, the CSRF value and the origin fit, and nothing otherwise |
| `AuthRecovery.GuiAuthRuntime.Intercept` | gui/src/api.ts:248-254 | takes exactly the first-send step |
| `AuthRecovery.GuiAuthRuntime.JoinRecovery` | gui/src/api.ts:212-223 | joins the shared recovery or starts the only one |
| `AuthRecovery.GuiAuthRuntime.OnFirstAnswer` | gui/src/api.ts:235-254 | takes exactly the first-answer step: race a newer credential, or drop the failed one and recover |
| `AuthRecovery.GuiAuthRuntime.OnRacedAnswer` | gui/src/api.ts:229-233 | takes exactly the raced-answer step, up to the end of the retry |
| `AuthRecovery.GuiAuthRuntime.OnRacedReturned` | gui/src/api.ts:238-243 | takes exactly the join step that follows the failed race |
| `AuthRecovery.GuiAuthRuntime.OnRetryAnswer` | gui/src/api.ts:229-233 | takes exactly the last-answer step |
| `AuthRecovery.GuiAuthRuntime.Install` | gui/src/api.ts:256-260 | stores the page's session exactly when it is acceptable |
| `AuthRecovery.GuiAuthRuntime.OnMint` | gui/src/api.ts:143-163 | takes exactly the session-page step |
| `AuthRecovery.GuiAuthRuntime.OnRenewed` | gui/src/api.ts:188-191 | takes exactly the step that settles the recovery or opens the prompt |
| `AuthRecovery.GuiAuthRuntime.OnPrompt` | gui/src/api.ts:191-197 | takes exactly the prompt step; an empty answer is a dismissal |
| `AuthRecovery.GuiAuthRuntime.OnWatchdog` | gui/src/api.ts:176-182 | takes exactly the watchdog step; the request may still answer |
| `AuthRecovery.GuiAuthRuntime.OnLateMint` | gui/src/api.ts:143-163 | takes exactly the late-answer step, which can still store a session |
| `AuthRecovery.GuiAuthRuntime.OnSharedSettled` | gui/src/api.ts:215-221 | takes exactly the clearing step |
| `AuthRecovery.GuiAuthRuntime.OnShared` | gui/src/api.ts:243-246 | takes exactly the delivery step: one more send with a credential, none without |
| `WinExec.CaretEscapeText` | scripts/win-exec.ts:37-44 | the loop computes the specified caret form |
| `WinExec.CaretCharsAre` | scripts/win-exec.ts:26-28 | the guarded characters are exactly the listed ones |
| `WinExec.GuardsTheRest` | scripts/win-exec.ts:26-28 | of everything cmd.exe acts on outside quotes only tab, equals sign and line feed go unguarded |
| `WinExec.QuoteArgument` | scripts/win-exec.ts:46-64 | the loop computes the specified quoted form |
| `WinExec.ThroughCmd` | scripts/win-exec.ts:98-111 | the verbatim argument is the specified line in outer quotes, caret-escaped twice for shims |
| `WinExec.NpmBinCmdMeans` | scripts/win-exec.ts:66-72 | a shim is exactly a path ending in node_modules\.bin\name.cmd, in any case and with either slash |
| `WinExec.SplitJoins` | scripts/win-exec.ts:66-67 | the parts of a path are the text between its separators |
| `WinExec.LowerFolds` | scripts/win-exec.ts:66-67 | case and the kind of slash do not matter to a path |
| `WinExec.PassOfEscaped` | scripts/win-exec.ts:37-44 | one caret pass over escaped text gives back the text with no listed character active |
| `WinExec.ArgvReadsQuoted` | scripts/win-exec.ts:46-64 | the argv rules read the quoted form back as exactly the argument, backslash runs and quotes included |
| `WinExec.ArgvReadsAll` | scripts/win-exec.ts:98-105 | the argv rules read the joined quoted arguments back as exactly the list |
| `WinExec.SecondPass` | scripts/win-exec.ts:101-103 | through a shim the second pass leaves exactly the quoted arguments, only separators active |
| `WinExec.TailOfLine` | scripts/win-exec.ts:98-109 | where nothing in its name is loose, the first pass finds the batch file as the command word and the arguments as its tail |
| `WinExec.OnlySeparatorsAreActive` | scripts/win-exec.ts:37-64 | in each pass, of the listed characters only the spaces between the pieces are active, and what cmd.exe acts on is those and the tabs, equals signs and line feeds of the pieces |
| `WinExec.LineIsOneCommand` | scripts/win-exec.ts:98-111 | without a line feed in the pieces the whole line is one command: nothing ends or redirects it |
| `WinExec.CommandLineRoundTrip` | scripts/win-exec.ts:98-111 | for every batch file and argument list, cmd.exe's one command has the batch file as its word and gives back exactly the arguments, through one or two passes and the argv rules, if and only if no line feed is in any of them and no tab or equals sign in the batch file's name |
| `ModuleGraph.FirstKnownFinds` | gui/scripts/i18n-module-graph.ts:162-172 | the first candidate that is a module, or none is |
| `ModuleGraph.NormalizedPath` | gui/scripts/i18n-module-graph.ts:15-17 | a normalized path has no backslash and lost exactly one leading ./ if it had one |
| `ModuleGraph.AssetsAre` | gui/scripts/i18n-module-graph.ts:217-217 | style sheets, SVG and JSON are assets, and nothing else is |
| `ModuleGraph.ResolveRuntimeDependency` | gui/scripts/i18n-module-graph.ts:162-172 | the early-return loop finds it |
| `ModuleGraph.EntryQueue` | gui/scripts/i18n-module-graph.ts:203-203 | the initial queue holds exactly the known entry points |
| `ModuleGraph.FoundIsNew` | gui/scripts/i18n-module-graph.ts:212-224 | a module's loads queue exactly its resolved runtime imports not yet reached |
| `ModuleGraph.VisitLoads` | gui/scripts/i18n-module-graph.ts:212-224 | one module's loop yields exactly its imports and its two report lists |
| `ModuleGraph.VisitExplores` | gui/scripts/i18n-module-graph.ts:205-225 | a visit leaves every import of a reached module reached or queued |
| `ModuleGraph.VisitForced` | gui/scripts/i18n-module-graph.ts:205-225 | a visit meets nothing outside any closed set that holds the entries |
| `ModuleGraph.ReachableRuntimeModules` | gui/scripts/i18n-module-graph.ts:193-228 | ends on every finite project, cyclic or not, with exactly the least set that holds the known entries and is closed under resolved imports, each reachable module processed once and its reports collected once |
| `ModuleGraph.LeastClosedIsReached` | gui/scripts/i18n-module-graph.ts:193-228 | that set is exactly the modules some chain of imports from an entry leads to |
| `ModuleGraph.UnresolvedAreExactly` | gui/scripts/i18n-module-graph.ts:217-222 | the unresolved report holds exactly the relative, non-asset specifiers of visited modules that no candidate serves |
| `ModuleGraph.RefusedAreExactly` | gui/scripts/i18n-module-graph.ts:213-216 | the unsupported report holds exactly the unsupported loads of visited modules |
| `ModuleGraph.UnwrapImportArg` | gui/scripts/i18n-module-graph.ts:80-84 | the loop removes all parentheses |
| `ModuleGraph.FiniteSpecsAreLiterals` | gui/scripts/i18n-module-graph.ts:86-105 | the specifiers are exactly the literals in value position, once each, and there are none exactly when some operand is opaque |
| `ModuleGraph.FiniteSpecsCoverValue` | gui/scripts/i18n-module-graph.ts:86-105 | whatever else the program does, the argument's value is one of the listed specifiers |
| `TemplateMatch.IndexOfIsLeftmost` | gui/scripts/i18n-key-liveness.ts:278-280 | the search finds the leftmost occurrence, empty pieces included |
| `TemplateMatch.GreedyStep` | gui/scripts/i18n-key-liveness.ts:278-283 | taking the leftmost occurrence of the next middle loses no match |
| `TemplateMatch.GreedyIsExact` | gui/scripts/i18n-key-liveness.ts:276-284 | the greedy search succeeds exactly when the middles fit in order without overlap |
| `TemplateMatch.FillsIsProduces` | gui/scripts/i18n-key-liveness.ts:273-284 | fitting between prefix and suffix is being prefix, text and middles in turn, text, suffix |
| `TemplateMatch.MatchesTemplate` | gui/scripts/i18n-key-liveness.ts:273-284 | accepts a key if and only if the pieces produce it, for every number of holes, with empty or overlapping pieces |
| `TemplateMatch.PiecesAreTheTemplate` | gui/scripts/i18n-key-liveness.ts:286-292 | the pieces of a template with a hole produce exactly the strings the template can evaluate to |
| `HashRouting.ProviderAccessRoundTrip` | gui/src/provider-workspace/provider-access-hash.ts:18-31 | a written access hash is read back as its provider if and only if the name is one path segment |
| `HashRouting.ProviderAccessOwned` | gui/src/app-routing.ts:98-101 | the access hash of such a name belongs to Providers |
| `HashRouting.ResolvedPageIsColdPage` | gui/src/app-routing.ts:287-312 | the page a resolution renders is the page a cold load paints, for every hash |
| `HashRouting.RuleMeansPlace` | gui/src/app-routing.ts:169-187 | the rewrite rules fire only on the roots and surfaces the cold load treats as retired, and on two one-off spellings |
| `HashRouting.UnruledResolution` | gui/src/app-routing.ts:309-311 | elsewhere a hash stays exactly when its page owns it |
| `HashRouting.PageRootStable` | gui/src/app-routing.ts:122-143 | every page root but the retired one needs no rewrite |
| `HashRouting.RoutingHashStable` | gui/src/app-routing.ts:242-245 | every routing target needs no rewrite |
| `HashRouting.HarnessTargetResolves` | gui/src/app-routing.ts:266-276 | a harness target keeps its id; it is rewritten once more exactly when it carries a query |
| `HashRouting.HarnessIdIsKept` | gui/src/app-routing.ts:266-276 | the target of an integrations hash, but for the renamed one, has the same path below its root and the same query |
| `HashRouting.RetiredSurfaceIsKept` | gui/src/app-routing.ts:248-258 | a bookmark of a surface Routing absorbed is rewritten to that same surface under Routing |
| `HashRouting.FormerHostsAre` | gui/src/app-routing.ts:184-187 | a hash is under a former host exactly when it is under one of the five surfaces of Startup or the three of Models |
| `HashRouting.DebugLeadsTo` | gui/src/app-routing.ts:291-291 | everything under debug leads to logs/debug |
| `HashRouting.CodexAuthLeadsTo` | gui/src/app-routing.ts:292-294 | everything under codex-auth leads to the OpenAI provider's access tab |
| `HashRouting.CombosLeadsTo` | gui/src/app-routing.ts:190-195 | everything under combos leads to its surface under Routing |
| `HashRouting.EvaluationLeadsTo` | gui/src/app-routing.ts:190-195 | everything under evaluation leads to its surface under Routing |
| `HashRouting.AnalyticsLeadsTo` | gui/src/app-routing.ts:190-195 | everything under analytics leads to its surface under Routing |
| `HashRouting.LabLeadsTo` | gui/src/app-routing.ts:190-195 | everything under lab leads to Routing's compatibility surface |
| `HashRouting.HarnessRootLeadsTo` | gui/src/app-routing.ts:198-201 | claude and grok lead to their harness |
| `HashRouting.KeysLeadTo` | gui/src/app-routing.ts:261-263 | every spelling of the retired key pages leads to Api |
| `HashRouting.ListedHashStays` | gui/src/app-routing.ts:91-112 | every listed nested hash of Dashboard, Routing, Usage and Api paints its page and needs no rewrite |
| `HashRouting.UnknownRootIsDashboard` | gui/src/app-routing.ts:238-238 | a root that is no page, current or retired, paints the dashboard |
| `HashRouting.NormalizeDropsMarker` | gui/src/hash-routing.ts:13-19 | exactly one marker is dropped, with its slash if it has one |
| `HashRouting.RewritingSettles` | gui/src/app-routing.ts:230-312 | from every hash, following rewrites reaches one that needs none within two, painting the cold-load page at every step |
| `HashRouting.SecondRewriteExactly` | gui/src/app-routing.ts:266-312 | the second rewrite happens if and only if the harness rule applies to an integrations hash with a query |
| `HashRouting.PageValidatorsAccept` | gui/src/pages/sessions-hash-filter.ts:34-42 | the validators of Sessions, Logs and Storage accept their own roots, and Logs its debug surface |
| `HashRouting.SessionsTakes` | gui/src/pages/sessions-hash-filter.ts:34-42 | Sessions takes no parameter, or one policy or combo that is not blank |
| `HashRouting.LogsTakes` | gui/src/pages/logs-session-filter.ts:26-33 | Logs takes session ids on its root and nothing on its debug surface |
| `HashRouting.StorageTakes` | gui/src/pages/storage-tab.ts:28-31 | Storage takes its root and two tabs, and no parameter |
| `HashRouting.HasQueryCountsParams` | gui/src/app-routing.ts:118-120 | the pages without query state and the three validators count the same parameters |
| `HashRouting.DashboardRewritingSettles` | gui/src/app-routing.ts:230-312 | with the dashboard's own validators both results hold of every hash, with nothing assumed |
| `LogFollow.NewRowIsFar` | cmd/benes/observe.go:229-236 | a key that is not remembered was last printed more than 2500 rows ago |
| `LogFollow.TakeRowsKeepInv` | cmd/benes/observe.go:228-243 | printing any rows keeps the memory and spacing invariant |
| `LogFollow.TrimKeepsInv` | cmd/benes/observe.go:247-253 | trimming keeps it, prints nothing and leaves at most 5000 keys |
| `LogFollow.TrimKeepsLatest` | cmd/benes/observe.go:247-253 | beyond 5000 keys the latest 2500 are kept, and up to that many all are |
| `LogFollow.FollowKeepsInv` | cmd/benes/observe.go:206-257 | at the start of every poll of every run the set equals the keys in the order without repeats, these are the latest printed ones, and there are at most 5000 |
| `LogFollow.RepeatsAreFarApart` | cmd/benes/observe.go:206-257 | two printed rows with the same key are more than 2500 printed rows apart |
| `LogFollow.EveryPolledKeyIsPrinted` | cmd/benes/observe.go:206-257 | over every run the printed keys are exactly the polled ones |
| `LogFollow.FollowIsExact` | cmd/benes/observe.go:206-257 | up to 5000 distinct keys a run prints exactly the first row of each, in order |
| `LogFollow.ExitsWithFirstFailure` | cmd/benes/observe.go:208-228 | the command exits with the code of the first request that fails, 0 if none does, and prints the polls before it |
| `LogFollow.LogFollower.PrintEntries` | cmd/benes/observe.go:228-243 | the loop over one answer is the model's printing |
| `LogFollow.LogFollower.TrimMemory` | cmd/benes/observe.go:247-253 | the cut and the delete loop are the model's trimming |
| `LogFollow.LogFollower.Follow` | cmd/benes/observe.go:206-257 | the loop prints the polls before the first failure and exits with its code, or with 0 when the wait is cancelled |

## Left out

- React: hooks, rendering, and subscribers that call back into a resource while it notifies them; a step ends before its notifications run.
- ClientResource.Runtime: the one-line table wrappers of publish, seed, reload, ticks, deadlines and settlements, which only look up the key.
- ResourceTable: attempts of a resource already dropped from the table are followed in `ResourceRuns.EvictedPaintsNothing`, not in the table.
- ResourceRuns.OwnersWatchingOverRuns: assumes reloads come from current watchers; a refresh by someone who is not subscribed owns an attempt nobody's leave cancels.
- PoolRotation.AgreementOverRuns: assumes complete, valid payloads, no other writer, and that a gesture sees the newest `saving` rather than the mirror an effect updates (gui/src/codex-pool-rotation-machine.ts:253-254, 310), so one write at a time; lost answers, outdated seeds and an outdated flag have lemmas of their own.
- PoolRotation.RotationBinding.BeginWrite: reads the newest `saving`, where the source reads the mirror; `PoolRotation.OutdatedFlagBreaksParity` shows what two writes under an outdated mirror do.
- PoolRotation.AstrayOverRuns: assumes the listener stores what it is asked to store; one that stores something else may bring the values back by chance.
- PoolRotation: the `onStrategyResolved` callback, the empty patch refused by the write path, and error texts.
- BrowserLease: the run id format, path and symbolic-link checks, marker parsing, and lease files left by a crashed run; a successful wait or termination is taken to mean the process is dead, a failed start that none runs.
- BrowserLease.AtMostOneBrowser: needs that no two releases of one session overlap, which the cited code leaves to its caller; the runner's one shutdown per session provides it.
- EvidenceRun: assumes a timer that is due fires before time moves on; error aggregation and `connection.dispose` are not modelled.
- EvidenceRun.OuterSettlesOnceInTime: counts whole milliseconds.
- CdpSession: message texts, request parameters and listener removal.
- AuthRecovery: headers, origin tests, the legacy token, the verification call behind the prompt; page parsing is a parameter of the answer.
- WinExec: cmd's percent-expansion phase, its treatment of carriage returns, lower-casing beyond ASCII, and the PATH search for a bare command.
- ModuleGraph: parsing a module into its loads and turning a specifier into candidate paths are parameters; the array form of the input is the map it is converted to.
- TemplateMatch: the rest of key liveness (`resolveExpression`, `mergeResolved`, catalog rewriting).
- HashRouting: percent and plus decoding of query text is a parameter of the validators.
- LogFollow: computing a row's key and its text, the one-shot modes, and option parsing; other commands of `cmd/benes`.
- Release scripts, lint rules, layout probes, process-tree termination and small formatters: input/output or easy members.
