# nuitrack-rs core, modelled in Dafny

A model of the core of `nuitrack-rs`, the Rust wrapper around the Nuitrack
body-tracking SDK. It covers:

- the async runtime guard (`NuitrackRuntimeGuard`): a process-wide
  "initialized" flag plus the global API mutex, and `acquire`,
  `release_async` and its best-effort `Drop`;
- the session (`NuitrackSession`):
  - construction, `start_processing` and the spawned update loop (one
    iteration as a function of the world);
  - the manual `drive_update_cycle`;
  - `close`, followed by the drop of the session's device contexts;
- the session builder: device discovery (`fetch_available_devices_info_internal`),
  device selection (`find_target_device_from_cache`), the single-device
  default, `configure_devices_and_modules`, `init_session`, and the two-phase
  `discover_devices_first` / `finalize_session` with the discovery state's `Drop`;
- the callback-to-channel bridge that the `generate_async_tracker!` macro
  stamps out for every async tracker:
  - one slot per stream, holding a handler id and a leaked sender box;
  - `new_async`, `Clone`, the stream method and `Drop`;
  - the conversion and direct dispatchers;
  - its instance for the user tracker, with the user tracker's accessors;
- the blocking API:
  - `BlockingHandTracker`: connect, disconnect, `Drop` and the C trampoline;
  - the blocking `Nuitrack` handle and its own "initialized" flag;
- the build script's pure decisions:
  - resolving the SDK tag from `sdk_version_tag`, either a full `vX.Y.Z` or
    the latest patch of `vX.Y` found by `git ls-remote`;
  - comparing the vendored SDK's `VERSION` file;
  - choosing the platform library directory;
- the serde table of `JointType`.

## How the world is modelled

One immutable record, `World.World`, stands for the process around the SDK:

- the two "initialized" flags, which are separate statics;
- whether the global API mutex is poisoned;
- the devices the SDK would enumerate;
- the log of native calls made so far;
- the boxes leaked with `Box::into_raw`: live addresses, the next address,
  and a count of double frees;
- the channel each box feeds.

Native calls are an oracle. Call number `k` in the log throws with message
`faults[k]` exactly when `k` is a key of `faults`. A handle or handler id the
SDK returns is the position in the log of the call that returned it.
Concurrency is reduced to single steps:

- `tokio::spawn` becomes a counter of spawned tasks;
- a `try_lock` that might fail becomes a boolean parameter;
- the moment the cancellation token becomes cancelled becomes a number
  `cancelAfter`: the loop's `k`-th look at the token sees it cancelled
  exactly when `cancelAfter <= k`.

The build script's I/O becomes parameters: the outcome of `git ls-remote`,
whether the SDK directory exists, and the `VERSION` file's content.

Two places where the code does less than its own comments announce; the
model follows the code:

- `drive_update_cycle` counts a device with a skeleton tracker as handled
  without waiting on it. The comment at
  src/nuitrack/async_api/session.rs:257 says the skeleton tracker has
  priority, but the wait itself (lines 259-260) is commented out.
- `drive_update_cycle` calls the global `update` only when the session has no
  devices at all (src/nuitrack/async_api/session.rs:245-251). The global
  update for devices without a waitable module, which the comment at lines
  280-281 proposes, is commented out at lines 282-284.

`close` releases the SDK (src/nuitrack/async_api/session.rs:318) before the
session, and with it the device contexts and their callback registrations,
is dropped; the model keeps that order.

## Model

| member | source | states |
|---|---|---|
| World.Alloc | src/nuitrack/async_api/generate_tracker.rs:247-251 | `Box::into_raw` of a new sender: the address was not live before, is live after, and feeds a fresh open channel; the log is unchanged |
| World.Reclaim | src/nuitrack/async_api/generate_tracker.rs:264-283 | `Box::from_raw` and drop: the box is no longer live, and reclaiming a box that was not live counts one double free |
| RuntimeGuard.Acquire | src/nuitrack/async_api/session.rs:44-64 | a set flag refuses with `AlreadyInitialized` and changes nothing; otherwise it succeeds exactly when the lock is not poisoned and native `init` does not throw, the flag ends set exactly on success (reset on failure), and the error kind tells a poisoned lock (`OperationFailed`) from a throwing `init` (`InitFailed`) |
| RuntimeGuard.ReleaseAsync | src/nuitrack/async_api/session.rs:66-78 | the flag is always clear afterwards; with the flag clear it is a no-op returning `Ok`; with it set, `release` is called unless the lock is poisoned, and the result is `Ok` exactly when the lock was free and `release` did not throw |
| RuntimeGuard.DropGuard | src/nuitrack/async_api/session.rs:81-98 | only with the lock taken and the flag set is the flag cleared and `release` called; in every other case the world is unchanged |
| RuntimeGuard.AcquireAll | src/nuitrack/async_api/session.rs:44-50 | a sequence of `acquire` calls gives one result per call |
| RuntimeGuard.AcquireAllWhileHeld | src/nuitrack/async_api/session.rs:44-50 | while the flag is set, every `acquire` fails with `AlreadyInitialized` and the world is untouched |
| RuntimeGuard.AtMostOneWinner | src/nuitrack/async_api/session.rs:26-64 | of any sequence of `acquire` calls with no release between them, at most one succeeds, and none does if the flag was already set |
| RuntimeGuard.ExactlyOneWinner | src/nuitrack/async_api/session.rs:44-64 | from a clear flag and a working SDK, the first `acquire` wins and every later one is refused with `AlreadyInitialized` |
| RuntimeGuard.ReleaseOnceThenDrop | src/nuitrack/async_api/session.rs:66-98 | acquire, release twice, then drop: the second release is a harmless `Ok`, the flag ends clear, and native `release` is called exactly once |
| Session.NewSession | src/nuitrack/async_api/session.rs:126-143 | a session keeps its devices; the token, the handle slot and the module list exist exactly when it runs its own loop, which starts not cancelled and not spawned |
| Session.StartProcessing | src/nuitrack/async_api/session.rs:145-242 | native `run` under the lock; success exactly when the lock is free and `run` does not throw; on success a looping session spawns a new task and stores its handle, a non-looping one is unchanged; the loop bookkeeping stays consistent |
| Session.StartTwiceDetachesFirst | src/nuitrack/async_api/session.rs:173-226 | calling `start_processing` twice spawns two loop tasks and keeps only the second one's handle, so the first can no longer be joined by `close` |
| Session.IsFatalError | src/nuitrack/async_api/session.rs:288-295 | an error is fatal exactly when it is an `Ffi` error whose message contains `LicenseNotAcquired` |
| Session.NativeError | src/nuitrack/async_api/session.rs:186-215 | the loop's wait and update errors as written are always `OperationFailed`; with the SDK's error kept as `Ffi`, an error is fatal exactly when its message mentions the lost license |
| Session.ModulesPass | src/nuitrack/async_api/session.rs:183-207 | the module pass waits on a prefix of the modules in order; it completes only if no cancellation is seen, stops on cancellation before the next wait, and stops as fatal only right after a fatal wait error, with no earlier wait of the pass fatal; as written it never stops as fatal |
| Session.LoopIteration | src/nuitrack/async_api/session.rs:175-222 | one iteration: a token already cancelled stops it with no call; with modules it waits on a prefix of them in order; with none, it calls the global `update` only when devices exist and no cancellation is seen; as written it never stops on a fatal error |
| Session.DriveDevice | src/nuitrack/async_api/session.rs:253-267 | one device: a wait on its hand tracker only when it has no skeleton tracker; an error exactly when that wait throws |
| Session.DriveDevices | src/nuitrack/async_api/session.rs:253-285 | the cycle's calls are a prefix of the hand waits owed by the devices, in device order; all of them on success, and on error the last call made is the one that threw |
| Session.DriveDevicesOutcome | src/nuitrack/async_api/session.rs:253-285 | the cycle succeeds exactly when none of the owed waits throws, and an error comes from the first throwing wait |
| Session.DriveUpdateCycle | src/nuitrack/async_api/session.rs:244-286 | with no devices, a single global `update` whose throw is `OperationFailed`; with devices, the per-device waits |
| Session.SkeletonDevicesNeverWait | src/nuitrack/async_api/session.rs:257-261 | when every device has a skeleton tracker, the manual cycle makes no native call at all |
| Session.DropDevice | src/nuitrack/async_api/session.rs:30-38 | dropping a device context disconnects its skeleton tracker's registrations, then its hand tracker's, and touches no flag |
| Session.DropDevices | src/nuitrack/async_api/session.rs:30-38 | dropping all device contexts leaves the flags, faults and devices as they were |
| Session.DropDevicesLog | src/nuitrack/async_api/session.rs:30-38 | dropping the device contexts makes exactly their disconnect calls, in device order |
| Session.Close | src/nuitrack/async_api/session.rs:297-322 | `close` cancels and joins the loop, releases the SDK, then drops the devices; the flag is always clear afterwards, and the result is `Ok` exactly when the flag was clear or the lock was free and `release` did not throw |
| Session.CloseOrdering | src/nuitrack/async_api/session.rs:300-322 | for a running loop with a token and a task handle still held, whatever the task, `close` cancels, then joins, then releases, and only disconnect calls come after the release |
| Session.SessionReleasesOnce | src/nuitrack/async_api/session.rs:297-322 | acquire, build a session, close it, then drop the forgotten guard: native `release` is called exactly once and the flag ends clear, whatever the lock does at drop time |
| Session.LicenseLossIgnoredAsWritten | src/nuitrack/async_api/session.rs:189-205 | as written, an iteration whose every wait throws `LicenseNotAcquired` still completes and the loop continues |
| Session.LicenseLossStopsLoop | src/nuitrack/async_api/session.rs:288-295 | with the SDK's error kept as `Ffi`, the first wait throwing `LicenseNotAcquired` stops the loop as fatal right after that wait |
| SessionBuilder.FetchAvailableDevices | src/nuitrack/async_api/session_builder.rs:130-153 | under the lock, one device list call; on success one entry per enumerated device, in order, with its index, handle and getter values; a poisoned lock is `OperationFailed`, a throwing list call `DeviceError` |
| SessionBuilder.SerialIndex | src/nuitrack/async_api/session_builder.rs:243-247 | the index of the first device with the given serial, or the length when there is none |
| SessionBuilder.FindTargetDevice | src/nuitrack/async_api/session_builder.rs:224-249 | `DefaultSingle` resolves exactly when there is one device; `ByIndex` exactly when the index is in range; `BySerialNumber` exactly when some device has that serial, giving the first such; every failure is `DeviceError` |
| SessionBuilder.EffectiveConfigs | src/nuitrack/async_api/session_builder.rs:82-97 | given configurations are used unchanged; without any, no device gives no configuration, one device gives the hand-and-skeleton default for index 0, and several devices are a `DeviceError` |
| SessionBuilder.FirstWaitable | src/nuitrack/async_api/session_builder.rs:192-210 | the representative module type is the first hand or skeleton tracker of the list, and there is none exactly when the list has neither |
| SessionBuilder.CreateModule | src/nuitrack/async_api/session_builder.rs:194-213 | a hand or skeleton tracker is created with one factory call, fills its slot, and becomes the representative only if there is none yet; other module types are ignored; a factory throw is `ModuleCreationFailed`, and it succeeds exactly when its factory call (if any) does not throw |
| SessionBuilder.CreateModules | src/nuitrack/async_api/session_builder.rs:194-214 | the factory calls are a prefix of the list's, in list order, and all of them on success; the loop stops at the first throwing factory: it succeeds exactly when none of its factory calls throws, and a failure (`ModuleCreationFailed`) ends on the call that threw, after calls that did not; on success a tracker slot is filled exactly when its type was listed, and the representative is the first waitable type's module |
| SessionBuilder.CreateOnDevice | src/nuitrack/async_api/session_builder.rs:186-214 | the module loop from an empty context on the selected device: it stops at the first throwing factory, and on success the context holds that device, exactly the listed trackers with no open stream, and the first waitable type's module as representative |
| SessionBuilder.SetDeviceAndCreate | src/nuitrack/async_api/session_builder.rs:174-214 | `setDevice`, then the module loop: a throwing `setDevice` is a `DeviceError` after that one call and no factory call; the whole succeeds exactly when neither `setDevice` nor any factory call throws, and a failure ends on the call that threw |
| SessionBuilder.ConfigureOne | src/nuitrack/async_api/session_builder.rs:170-218 | an unresolvable selector fails with the selector's error and no call; a poisoned lock is `OperationFailed` with no call; a throwing `setDevice` is a `DeviceError` after that call alone; a throwing factory is `ModuleCreationFailed` ending on that call; it succeeds exactly when the selector resolves, the lock is usable and none of its calls throws, and then the log is `setDevice` on the selected device followed by the factory calls, and the context holds that device and exactly the listed trackers with no open stream, with the representative following the first waitable type |
| SessionBuilder.ConfigureDevices | src/nuitrack/async_api/session_builder.rs:156-221 | on success one device context per configuration, in order, each for the device its selector resolves to, with exactly the listed trackers, and one loop module per configuration that lists a waitable type; success also means every selector resolved, the lock was usable and none of the `setDevice` and factory calls, one `setDevice` plus one per waitable module per configuration, threw; an error aborts the whole call, after calls that did not throw but the last |
| SessionBuilder.ConfigureDevicesSucceeds | src/nuitrack/async_api/session_builder.rs:170-220 | the converse: when every selector resolves, the lock is usable and none of those calls throws, configuration succeeds |
| SessionBuilder.UnresolvableConfigFails | src/nuitrack/async_api/session_builder.rs:170-172 | one configuration whose selector cannot be resolved makes the whole configuration fail |
| SessionBuilder.DiscoverDevicesFirst | src/nuitrack/async_api/session_builder.rs:114-127 | succeeds exactly when the flag was clear, the lock is free and neither `init` nor the device list call throws; then the discovery state holds the guard and every enumerated device in order; a failure with the lock free leaves the flag clear |
| SessionBuilder.ConfigureAndBuild | src/nuitrack/async_api/session_builder.rs:99-110 | a built session has one device per configuration and consistent loop bookkeeping; a failed build drops the guard and so leaves the flag clear |
| SessionBuilder.InitSession | src/nuitrack/async_api/session_builder.rs:74-111 | refused while the flag is set; on success the flag is set, `init` and the device list call come first in the log, and the session has one device per configuration (at most one with none given); a failure with the lock free leaves the flag clear |
| SessionBuilder.SingleDeviceDefault | src/nuitrack/async_api/session_builder.rs:82-218 | with one device and no configuration, the session drives that device with a hand and a skeleton tracker, waits on the hand tracker, and makes exactly `init`, list, `setDevice` and two factory calls |
| SessionBuilder.DefaultConfigures | src/nuitrack/async_api/session_builder.rs:170-218 | the default configuration selects the first device, creates the hand tracker then the skeleton tracker, and makes the hand tracker the loop module |
| SessionBuilder.DefaultModulesCreated | src/nuitrack/async_api/session_builder.rs:194-213 | creating the default modules succeeds when neither factory call throws |
| SessionBuilder.SeveralDevicesNeedConfig | src/nuitrack/async_api/session_builder.rs:88-94 | with two or more devices and no configuration, `init_session` fails with `DeviceError` and the dropped guard releases the SDK |
| SessionBuilder.FinalizeSession | src/nuitrack/async_api/session_builder.rs:265-284 | a state whose guard was taken fails with `OperationFailed` and no call; a finalized session keeps the builder's loop setting and has one device per configuration |
| SessionBuilder.DropDiscoveryState | src/nuitrack/async_api/session_builder.rs:287-294 | dropping an unfinalized state drops its guard: with the lock free and unpoisoned and the flag set, the result is exactly the world with the flag cleared and `release` appended; in every other case, and when the guard was already taken, the world is unchanged |
| SessionBuilder.DiscoverThenAbandon | src/nuitrack/async_api/session_builder.rs:114-294 | discovering and then dropping the state leaves the flag clear after `init`, the list call and one `release` |
| Tracker.NewAsync | src/nuitrack/async_api/generate_tracker.rs:220-233 | one factory call; on success the tracker's handle is that call, with one empty slot per declared stream; a throw is `ModuleCreationFailed` |
| Tracker.Clone | src/nuitrack/async_api/generate_tracker.rs:202-212 | a clone shares the native module but owns no registration and no box |
| Tracker.OpenStream | src/nuitrack/async_api/generate_tracker.rs:241-260 | a slot with a handler refuses with `OperationFailed` and no call; otherwise a box is always leaked and recorded before the connect call; on success the slot holds the new handler id and the stream reads the new open channel |
| Tracker.OpenStreamFixed | src/nuitrack/async_api/generate_tracker.rs:241-260 | as `OpenStream`, except that on a connect failure the box is reclaimed and the slot left empty |
| Tracker.DropSlot | src/nuitrack/async_api/generate_tracker.rs:264-283 | dropping one slot disconnects its handler, if any, and frees its box, counting a double free only for a box that was not live |
| Tracker.DropSlots | src/nuitrack/async_api/generate_tracker.rs:264-283 | dropping the slots makes one disconnect per registered slot, in slot order, and frees exactly the recorded boxes; with distinct live boxes there is no double free |
| Tracker.DropTracker | src/nuitrack/async_api/generate_tracker.rs:264-283 | a tracker's `Drop` disconnects every registered stream in order and frees exactly its boxes, with no double free when they are distinct and live |
| Tracker.DropEmptyTracker | src/nuitrack/async_api/generate_tracker.rs:264-283 | dropping a tracker with no open stream (such as a clone) changes nothing |
| Tracker.Send | src/nuitrack/async_api/generate_tracker.rs:305-307 | while the stream's receiver lives, the item is queued at the back of that channel and nothing else changes: no native call, no box, no other channel, and both ends of the channel as they were; once the receiver is dropped the item is lost and the world is unchanged |
| Tracker.Converted | src/nuitrack/async_api/generate_tracker.rs:294-308 | a conversion that yields nothing is delivered as an `OperationFailed` item, never skipped |
| Tracker.ConversionDispatch | src/nuitrack/async_api/generate_tracker.rs:294-308 | a null sender pointer sends nothing; otherwise, while the receiver lives, exactly one item joins the back of that box's channel (`Ok` of the conversion, or `OperationFailed` when it gives nothing) and nothing else changes; with the receiver gone nothing changes |
| Tracker.DirectDispatch | src/nuitrack/async_api/generate_tracker.rs:315-324 | a null sender pointer sends nothing; otherwise, while the receiver lives, exactly `Ok` of the value joins the back of that box's channel and nothing else changes; with the receiver gone nothing changes |
| Tracker.ConversionFifo | src/nuitrack/async_api/generate_tracker.rs:294-308 | callbacks on an open stream are delivered in order, one item each, without touching the log or the boxes |
| Tracker.DirectFifo | src/nuitrack/async_api/generate_tracker.rs:315-324 | the same for directly delivered values, each as `Ok` |
| Tracker.ClosedStreamIgnoresCallbacks | src/nuitrack/async_api/generate_tracker.rs:294-308 | once the stream is dropped, callbacks change nothing |
| Tracker.ReopenAfterStreamDropRefused | src/nuitrack/async_api/generate_tracker.rs:241-260 | dropping a stream does not free its slot: reopening it is refused without a native call |
| Tracker.OpenStreamRetryLeaks | src/nuitrack/async_api/generate_tracker.rs:247-258 | as written, retrying a stream after a failed connect overwrites the first box's record, which the tracker's `Drop` then never frees |
| Tracker.OpenStreamFixedAccounted | src/nuitrack/async_api/generate_tracker.rs:241-260 | with the fix, the live boxes stay exactly the distinct boxes the slots record, and a slot records a box exactly when it holds a handler |
| Tracker.DropAccountedFreesAll | src/nuitrack/async_api/generate_tracker.rs:264-283 | when the slots account for every live box, `Drop` frees all of them with no double free |
| UserTracker.NewUserTracker | src/nuitrack/async_api/user_tracker.rs:8-39 | the user tracker is the bridge with the user-frame, new-user and lost-user streams, all empty on creation |
| UserTracker.ConvertUserFrame | src/nuitrack/async_api/user_tracker.rs:8-39 | a frame converts exactly when the SDK's pointer is not null |
| UserTracker.LatestUserFrameSync | src/nuitrack/async_api/user_tracker.rs:48-66 | one accessor call; `Ok` with the frame exactly when the call does not throw and the frame is not null, `OperationFailed` otherwise |
| UserTracker.QueryAccessor | src/nuitrack/async_api/user_tracker.rs:70-105 | the timing and `can_update` accessors return the SDK's value exactly when the call does not throw, `OperationFailed` otherwise |
| UserTracker.NewUserEventsDelivered | src/nuitrack/async_api/user_tracker.rs:8-39 | after opening the new-user stream, every new-user callback reaches it in order as `Ok` of that user id |
| UserTracker.NullUserFrameIsError | src/nuitrack/async_api/user_tracker.rs:8-39 | a null user frame reaches the stream as one `OperationFailed` item |
| BlockingHandTracker.NewBlocking | src/nuitrack/blocking_api/hand_tracker.rs:22-31 | one factory call; on success a tracker with no callback; a throw is `ModuleCreationFailed` |
| BlockingHandTracker.ConnectOnUpdate | src/nuitrack/blocking_api/hand_tracker.rs:33-65 | refused with `OperationFailed` and no call while connected; otherwise the callback box is leaked, then connected; on success both the handler id and the box are kept, and on failure the box is freed and nothing is kept |
| BlockingHandTracker.DisconnectOnUpdate | src/nuitrack/blocking_api/hand_tracker.rs:67-83 | a no-op `Ok` when not connected; otherwise one disconnect call, after which the box is freed and both fields are cleared whatever the call returns |
| BlockingHandTracker.DropBlocking | src/nuitrack/blocking_api/hand_tracker.rs:86-96 | `Drop` disconnects as `disconnect_on_update` does, or frees a box left without a handler |
| BlockingHandTracker.Trampoline | src/nuitrack/blocking_api/hand_tracker.rs:99-132 | a null user pointer is ignored; otherwise the box's callback gets exactly one more invocation, with the frame or `OperationFailed` for a null frame; nothing else changes |
| BlockingHandTracker.TrampolineOrder | src/nuitrack/blocking_api/hand_tracker.rs:99-132 | a run of native callbacks reaches the registered callback in order, one invocation each |
| BlockingHandTracker.ApplyAllKeepsOwnership | src/nuitrack/blocking_api/hand_tracker.rs:33-83 | over any sequence of connects and disconnects, the tracker owns exactly the one box it records (or none), and no box is freed twice |
| BlockingHandTracker.EveryBoxFreedOnce | src/nuitrack/blocking_api/hand_tracker.rs:33-96 | after any sequence of connects and disconnects followed by `Drop`, every leaked box has been freed, exactly once |
| BlockingHandTracker.ConnectedCallbackReceivesFrames | src/nuitrack/blocking_api/hand_tracker.rs:33-132 | after a successful connect, the callback receives every frame the SDK delivers, in order |
| BlockingNuitrack.InitWith | src/nuitrack/blocking_api/nuitrack.rs:21-47 | refused while the flag is set; succeeds exactly when a device exists and `init`, the list call and `setDevice` do not throw, having logged exactly those calls; `InitFailed` exactly when `init` throws, `DeviceError` exactly when the list call or `setDevice` throws, `NoDeviceFound` exactly when both earlier calls succeed on an empty device list, and then the SDK is released and the flag cleared; after the other errors the flag is cleared or kept according to the error handling chosen |
| BlockingNuitrack.InitAsWritten | src/nuitrack/blocking_api/nuitrack.rs:21-47 | as written, the flag stays set after every outcome except `NoDeviceFound`; with no device and working `init` and list calls, it logs `init`, the list call and `release`, clears the flag and reports `NoDeviceFound` |
| BlockingNuitrack.Init | src/nuitrack/blocking_api/nuitrack.rs:21-47 | corrected, the flag ends set exactly when a handle is returned, and an error after `init` succeeded ends with a `release` |
| BlockingNuitrack.Run | src/nuitrack/blocking_api/nuitrack.rs:49-53 | one native `run`, whose throw becomes an `Ffi` error carrying its message |
| BlockingNuitrack.DropNuitrack | src/nuitrack/blocking_api/nuitrack.rs:56-65 | `Drop` calls `release` and clears the flag whatever `release` returns |
| BlockingNuitrack.InitFailureLocksOut | src/nuitrack/blocking_api/nuitrack.rs:22-28 | as written, a throwing `init` leaves the flag set, so every later `init` is refused |
| BlockingNuitrack.SetDeviceFailureLocksOut | src/nuitrack/blocking_api/nuitrack.rs:22-43 | as written, a throwing `setDevice` leaves the SDK initialized and never released, and every later `init` is refused |
| BlockingNuitrack.InitFailureRecovers | src/nuitrack/blocking_api/nuitrack.rs:21-47 | corrected, after any error the flag is clear, and a retry whose native calls succeed returns a handle |
| BlockingNuitrack.InitDropCycle | src/nuitrack/blocking_api/nuitrack.rs:21-65 | `init` then `Drop` makes exactly `init`, list, `setDevice` and `release`, clears the flag, and lets `init` run again |
| BlockingNuitrack.FlagsIndependent | src/nuitrack/blocking_api/nuitrack.rs:11 | the blocking flag and the async guard's flag are independent: both APIs can hold the SDK at once |
| BuildScript.FullVersionOfParts | build.rs:57-63 | three `u32` numbers joined by dots are a full version, with or without a leading `v`, and two are not |
| BuildScript.FullVersionTag | build.rs:57-77 | a full `X.Y.Z` specifier is used as the tag, with a leading `v`, and names the same version |
| BuildScript.FullVersionAddsV | build.rs:67-71 | a full specifier without `v` gets exactly one `v` prefixed |
| BuildScript.DynamicBase | build.rs:79-93 | a partial specifier is accepted exactly when it is `[v]X.Y` with a non-empty `X`, and is normalised to `vX.Y` |
| BuildScript.CandidateOfLine | build.rs:121-133 | a line yields a candidate only if it splits into exactly two whitespace-separated fields with the second starting with `refs/tags/`; the tag is that field with the prefix removed, it starts with `vX.Y.`, and the rest parses as the `u32` patch number kept |
| BuildScript.CandidateOfTagLine | build.rs:121-133 | every well-formed line `<hash> refs/tags/vX.Y.<patch>` whose patch parses as `u32` yields the tag `vX.Y.<patch>` with that patch number |
| BuildScript.LineCandidates | build.rs:121-133 | the output is judged line by line: one verdict per line, in output order, each depending on its own line only |
| BuildScript.Somes | build.rs:127-131 | only tags that passed every check are collected: each collected value was present among the line verdicts |
| BuildScript.SomesComplete | build.rs:127-131 | no tag that passed every check is dropped |
| BuildScript.SomesAtRank | build.rs:127-131 | the collected tags keep the output's order and multiplicity: there are as many as there are accepted lines, and the `n`-th accepted line's tag is the `n`-th collected |
| BuildScript.Candidates | build.rs:118-134 | every collected candidate is the candidate of some line of the output, and is a `vX.Y.<patch>` tag whose patch parses as `u32`; there are no more candidates than lines |
| BuildScript.CandidatesComplete | build.rs:121-134 | every line that yields a candidate contributes it |
| BuildScript.Latest | build.rs:143-156 | the chosen candidate has the greatest patch number, and is the last of those that tie, as the last element of a stable ascending sort |
| BuildScript.ResolveActualTag | build.rs:55-162 | a full specifier resolves to itself without consulting git; otherwise it resolves exactly when the base is well formed, `ls-remote` succeeds and some candidate exists, to the candidate with the greatest patch, which starts with `vX.Y.` |
| BuildScript.FullVersionIgnoresGit | build.rs:63-77 | for a full specifier the outcome of `git ls-remote` does not matter |
| BuildScript.IsSdkCurrent | build.rs:184-234 | the vendored SDK is current exactly when the directory and a non-empty `VERSION` file exist and its first line, trimmed, equals the tag without its `v` |
| BuildScript.VersionFileRoundTrip | build.rs:209-225 | a `VERSION` file whose first line is a tag's version makes that tag current, and no tag naming another version |
| BuildScript.PlanVendoring | build.rs:23-48 | the build fails exactly when tag resolution fails; otherwise it clones exactly when the vendored SDK is not current for the resolved tag |
| BuildScript.SecondBuildSkipsClone | build.rs:27-234 | once the SDK for the resolved tag is vendored with its `VERSION` file, the next build does not clone again |
| BuildScript.PlatformLibDir | build.rs:372-383 | a library directory exists exactly for Windows with a 64- or 32-bit pointer width and for Linux on `x86_64`, `aarch64` or an `arm*` architecture; on Windows `win64` is chosen exactly for 64-bit; on Linux `linux64` exactly for `x86_64`, `linux_arm64` exactly for `aarch64` and `linux_arm` for the other `arm*` architectures; the `win*` directories are exactly the Windows ones, and every refusal is an `Unsupported …` message |
| BuildScript.LinuxIgnoresPointerWidth | build.rs:377-383 | on Linux the pointer width does not matter, and the OS name is matched case-sensitively |
| JointTypes.Serialize | src/nuitrack_bridge/types/skeleton.rs:211-246 | a joint serializes to `unknown` exactly when its representation is not one of the 25 declared joints |
| JointTypes.Deserialize | src/nuitrack_bridge/types/skeleton.rs:249-302 | an accepted name gives a declared joint whose name it is; anything else is serde's unknown-variant error naming the input |
| JointTypes.RoundTrip | src/nuitrack_bridge/types/skeleton.rs:211-302 | every declared joint survives serializing and deserializing |
| JointTypes.AcceptsExactlyTheNames | src/nuitrack_bridge/types/skeleton.rs:268-295 | the deserializer accepts exactly the names of declared joints |
| JointTypes.NamesDistinguish | src/nuitrack_bridge/types/skeleton.rs:211-246 | distinct declared joints have distinct names |
| JointTypes.UndeclaredIsLossy | src/nuitrack_bridge/types/skeleton.rs:211-295 | an undeclared representation serializes to a name that does not read back |
| Strings.StripV | build.rs:57-59 | `strip_prefix('v').unwrap_or(s)` removes exactly one leading `v` when there is one |
| Strings.TrimStartMatches | build.rs:124-128 | only whole copies of the (non-empty) pattern are cut from the front, so the input is some number of copies followed by the result, and the result no longer starts with the pattern |
| Strings.Contains | src/nuitrack/async_api/session.rs:290 | substring search finds the pattern exactly when it occurs at some offset |
| Strings.Split | build.rs:60 | splitting gives one more part than there are separators, and no part contains the separator |
| Strings.SplitJoin | build.rs:60 | joining the parts with the separator gives back the input |
| Strings.SplitWhitespace | build.rs:122 | every field is non-empty and free of whitespace; a single word is one field, and a string of whitespace has none |
| Strings.SplitWhitespaceSkip | build.rs:122 | whitespace before a field yields no field, not even an empty one |
| Strings.SplitWhitespaceWord | build.rs:122 | a non-empty word followed by whitespace or the end of the string is one whole field, followed by the fields of the rest |
| Strings.TrimNoWhitespace | build.rs:217 | `trim` leaves a string without whitespace unchanged |
| Strings.Trim | build.rs:217 | `trim` returns the piece of the input with only whitespace on either side of it and no whitespace at either of its ends |
| Strings.FirstLineOf | build.rs:209 | the first of `lines()` is the text before the first newline |
| Strings.Lines | build.rs:209 | the empty string has no lines, no line contains a newline, and a non-empty string without newline is one line |
| Strings.LinesCons | build.rs:209 | a line ended by `\n` comes first, whole, followed by the lines of the rest |
| Strings.LinesCrlfCons | build.rs:209 | a line ended by `\r\n` comes first without its `\r`, followed by the lines of the rest |
| Strings.LinesUnlines | build.rs:121 | lines written out each followed by `\n` are read back unchanged |
| Strings.ParseU32 | build.rs:63 | a successful `parse::<u32>()` is at most `u32::MAX` and came from a non-empty string made of an optional leading `+` and decimal digits |

## Left out

- I/O, environment variables and child processes of the build script (reading `Cargo.toml`, `git ls-remote`, `git clone`, checking the `VERSION` file, compiling the C++ bridge): their outcomes are parameters.
- `run_blocking` and task joins: a blocking task is modelled as running to completion; a join error (a panicked blocking task) is not modelled.
- Concurrency: each operation is one atomic step, the update loop runs one iteration at a time, and `tokio::select!` pacing (the 1 ms sleep) is reduced to the cancellation counter `cancelAfter`.
- `start_processing` without the `tokio_runtime` feature, which only prints a warning: the model assumes the feature is enabled.
- Session.StartProcessing: the error branch for a session that runs its own loop but lacks a token or handle slot only prints, and is covered only by the loop bookkeeping staying consistent.
- The accessor values the SDK returns (floating-point processing time, `u64` timestamp, `can_update`) are opaque parameters.
- Logging (`println!`, `eprintln!`, `tracing`) is not modelled.
- Device-info getters (`name`, `serial`, `provider`) are not logged as individual native calls; a getter that throws is a `None` field of the enumerated device.
- The other trackers that `generate_async_tracker!` generates (hand, skeleton, gesture, colour and depth) share the bridge in `Tracker`. Their frame types and their modality-specific accessors are not part of this model.
- The `ActiveDeviceContext` declares its skeleton slot with the hand tracker's type. The model gives each slot a tracker of its own kind, because only handles and slots matter here.
- Panic containment inside the blocking trampoline (`catch_unwind`) is not modelled: the callback is a record of its invocations.
- BlockingHandTracker.Trampoline: requires the user pointer to name a box that has a channel, because the SDK only calls a handler that is still registered.
- Tracker.OpenStream and Tracker.OpenStreamFixed: require the stream index to be one of the tracker's declared streams, which the macro guarantees at compile time.
- BuildScript.FullVersionTag: states the version and the leading `v` rather than the exact string; BuildScript.FullVersionAddsV gives the exact string for a specifier without `v`.
- BuildScript.Latest: the `unwrap_or(0)` in the sort comparator is unreachable, because every candidate's patch already parsed.
- Strings.ParseU32: states the bound and the shape of its input, not the decimal value, which `Strings.DigitsValue` defines; BuildScript.CandidateOfTagLine keeps that value as the patch number.
- Config-file overrides, gesture recognition and depth or colour frames are not part of this model.

## Findings

| source | as written | input that shows it | evidently intended | confidence | as-written member | corrected member |
|---|---|---|---|---|---|---|
| src/nuitrack/async_api/generate_tracker.rs:247-258 | The stream method leaks the sender box and records it in the slot before the connect call. When the connect call throws, the box stays recorded with no handler, and the slot still accepts a new open. | Open a stream whose connect call throws, then open it again: the retry records a new box over the first, which nothing frees any more. | Reclaim the box when the connect call fails, leaving the slot empty. | not executed | Tracker.OpenStreamRetryLeaks | Tracker.OpenStreamFixedAccounted |
| src/nuitrack/blocking_api/nuitrack.rs:22-43 | `init` sets the process-wide flag first. Only the no-device path resets it. When native `init`, the device list or `set_device` throws, no handle exists whose `Drop` could reset it. | The first `init` call's native `init` throws `InitFailed`; every later `init` returns `AlreadyInitialized`. | Reset the flag on every error path, releasing the SDK after a successful native `init`. | not executed | BlockingNuitrack.InitFailureLocksOut | BlockingNuitrack.InitFailureRecovers |
| src/nuitrack/async_api/session.rs:189-205 with 288-295 | The loop maps every wait error to `OperationFailed`. `is_fatal_error` recognises only `Ffi` errors, so a lost license never stops the loop. | Every wait of an iteration throws `LicenseNotAcquired`: the iteration completes and the loop keeps waiting. | Keep the SDK's error as `Ffi` (or classify before mapping), so that the loop cancels itself on a lost license. | not executed | Session.LicenseLossIgnoredAsWritten | Session.LicenseLossStopsLoop |
