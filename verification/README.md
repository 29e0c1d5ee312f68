# Lumiverse: release scripts and desktop shell, modelled and proved

Lumiverse ships a self-contained desktop app. Its release scripts drive a shared store on GitHub (draft
releases, per-platform uploads, channel feeds); its desktop shell is single-threaded asynchronous code that
talks to a runner process, to remote instances and to the operating system; its build and maintenance scripts
walk file systems, syntax trees and binary records. This project models the parts of that code whose
correctness depends on state, order or recursion, and proves what they guarantee.

How the pieces are modelled:

- A protocol is a state machine. One step is what the program does between two points where something else may
  happen: one store request for the release scripts (a crash may follow any request), the code between two
  awaits for the shell (a timer and the microtasks it releases are one step). An event is the program's own next
  step or a choice of the environment: a reply, a timeout, a click, an exit. Theorems quantify over all runs.
- Code that updates variables or fields is a class or a method with loops, and its contract ties it to the
  step function or specification function that the theorems are about. The `Valid()` of the runner client, of the
  presence queue and of the shell's classes is the invariant those theorems rest on, and every handler keeps it.
- HTTP, JSON, hashing, inflate, the file system's own calls and native commands are parameters, values or
  environment events.

Modules, by source file:

| module | source |
|---|---|
| `Versions`, `Releases`, `ReleaseChecks`, `Publication`, `ReleaseApi`, `ReleaseProtocol`, `ChannelOrder`, `FeedSignatures`, `ReleaseHistory`, `ReleaseWitnesses`, `UploadRuns`, `BuilderGate` | `scripts/desktop-release.ts`, `scripts/publish-desktop-release.ts`, `scripts/private-linux-release.ts` |
| `RunnerClient` | `desktop/src/runner-client.ts` |
| `PresenceQueue` | `desktop/src/discord-presence.ts` |
| `ConnectionQueue`, `RemoteAuthorization`, `AuthorizationOutcomes`, `ScreenCapture`, `CaptureOutcomes` | `desktop/src/main.ts`, `desktop/src/desktop-capture.ts` |
| `BundleFiles` | `scripts/build-server.ts` |
| `IslandSelect` | `frontend/scripts/bench-html-islands.ts` |
| `SharpInstall` | `src/sharp-preflight.ts` |
| `ShellQuote` | `scripts/build-linux-appimage-remote.ts` |
| `UploadBatches`, `PngChara`, `PngCards` | `scripts/migrate-sillytavern.ts` |
| `MachO` | `scripts/lancedb-macos-native.ts` |
| `OwnershipBackfill` | `scripts/backfill-character-world-book-ownership.ts` |
| `Sampling` | `scripts/bench-thumbnail-codecs.ts` |
| `Bytes`, `Wrappers` | shared: 32-bit numbers in buffers, `Option` |

What the proofs turned up, with the condition under which each promise does hold:

- Replacing a channel feed is a deletion and a post. A crash between the two lets an older build through the
  backward check (`Publication.RemovalWindowForgetsOrder`). `ReleaseWitnesses.ChannelGoesBack` is such a run from
  an empty store, and `ReleaseWitnesses.RemovalWindowOpens` the store it passes through. Over any stretch of any
  run a channel only moves forward exactly if no older build is posted in it for a feed that a crash had lost
  (`ChannelOrder.ForwardExactly`); the next post of the channel makes up for the crash
  (`ChannelOrder.MissingExactly`). Before publishing: a build whose checks pass takes its channel back exactly if
  the channel's feed is missing and the build is older than the last one
  (`ChannelOrder.PublishingGoesBackExactly`). That a version has one source needs no condition
  (`ChannelOrder.OneSourcePerVersion`).
- The artifact check at publication compares names only (`Releases.PayloadBytesUnchecked`). An upload that was
  started again with other bytes and cut off leaves a public feed whose signature is not that of the stored
  payload (`ReleaseWitnesses.SignatureStopsFitting`, a run from an empty store). A feed's signature for a platform
  fits what is stored exactly if the uploads that last posted the payload, the signature file and the fragment
  were of the same bytes (`FeedSignatures.ChannelFeedsSigned`); so it does if no upload of the platform changed
  something without one being completed since.
- A cancellation that the native side fails leaves the shell showing "authorizing" with polling blocked
  (`RemoteAuthorization.FailedCancelStrands`), exactly if it was the last unanswered one, no attempt on the
  selected instance was left, and nothing that ends it has happened since
  (`RemoteAuthorization.StrandedExactly`).
- A late cancellation answer also lands on a newer attempt (`RemoteAuthorization.LateCancelHidesNewAttempt`),
  exactly if it reports success, the attempt was started on the selected instance after the cancellation, and
  "authorizing" still shows (`RemoteAuthorization.CancelOverwritesExactly`).
- A poll that started before a switch of instances can store its answer after the switch
  (`RemoteAuthorization.PollOutlivesSwitch`): the identity comparison cannot tell "none yet" from "none again".
  That happens exactly if the poll started without a snapshot, there is none at its answer, and its instance is
  selected (`RemoteAuthorization.LatePollWrites`).
- A restore of screen capture from before a disable still connects, finds itself unwanted and takes down the
  connection of the enable that followed (`CaptureOutcomes.OldRestoreTakesDown`). A current enable ends with the
  setting on and its connection live if no restore's connect and no change of instance came between its native
  connect and the answer (`CaptureOutcomes.CurrentEnableConnects`).
- A presence poll that throws before it returns a promise blocks the queue for good, exactly when the queue was
  idle (`PresenceQueue.StuckExactlyAfterThrow`).
- `readManifest` accepts names under "previous", where the installer keeps the directory it replaces; an
  undisturbed installation then does not end valid (`SharpInstall.UndisturbedRun`). What it returns has every
  other listed file in place, and is valid exactly if nothing is listed there (`SharpInstall.InstallOutcome`).
- A card chunk that does not inflate hides a readable one behind it (`PngChara.FirstDecodable`,
  `PngChara.BrokenCardHidesNext`).
- A bulk import counts what the server lists. If a response does not hold one result per file, the three
  counters do not add up to the number of files (`UploadBatches.EveryFileCounted`).

## Model

| member | source | states |
|---|---|---|
| Versions.OrderIsPrecedence | scripts/publish-desktop-release.ts:76-80 | For any two versions the order is that of section 11 of SemVer 2.0.0 written out: major, then minor, then patch, then a prerelease before its release, then the first differing identifier, numbers by value and before texts, and a list after its own beginning. |
| Versions.OrderDecides | scripts/publish-desktop-release.ts:76-80 | The precedence the backward check relies on (section 11 of SemVer 2.0.0) is antisymmetric, and only equal versions tie. |
| Versions.OrderChains | scripts/publish-desktop-release.ts:76-80 | It is transitive, so refusals along a channel add up. |
| Versions.NightlyPlacement | scripts/desktop-release.ts:39-45 | A nightly follows its base and precedes exactly the stable versions that follow the base. |
| Versions.NightlyOrder | scripts/desktop-release.ts:39-45 | Nightlies are ordered as their (base, date, run) triples are, both ways. |
| Versions.ReleaseVersionDenotes | scripts/desktop-release.ts:39-45 | The string built reads back as the base, or as that base's nightly of the day and run; the two errors occur exactly for bases that are not X.Y.Z and run numbers that are not positive. |
| Versions.DecimalRoundTrip | scripts/desktop-release.ts:44 | Adding one to the patch and writing it out gives a numeral of that value. |
| Releases.MergeMeaning | scripts/desktop-release.ts:61-70 | Merging succeeds exactly for fragments of one build that share no platform, and the result holds exactly their entries. |
| Releases.MergeFeeds | scripts/desktop-release.ts:61-70 | The nested loops compute that merge, with the first error met. |
| Releases.ReadFeedComplete | scripts/publish-desktop-release.ts:60-71 | A feed that passes the checks describes the build, is valid, and pins every one of the six platforms to an artifact of this release that is present with its signature. |
| ReleaseChecks.ReadFeedExactly | scripts/desktop-release.ts:46-70 | A release can be read for a build exactly if all six fragments are there and of that build, which is well-formed, no two list one platform, every platform has a signed entry, and every entry is an asset of this release with its signature; the feed has the first fragment's notes and date and exactly the listed entries. |
| ReleaseChecks.ValidFeedExactly | scripts/desktop-release.ts:46-60 | A feed is valid exactly if it is its channel's, its hashes and version are well-formed, and all six platforms have a signed entry on GitHub. |
| ReleaseChecks.ReadFeedReports | scripts/publish-desktop-release.ts:61-71 | A missing fragment is reported before everything else, then fragments of other builds or repeated platforms, then an invalid feed, then the entries. |
| ReleaseChecks.MergeFails | scripts/desktop-release.ts:61-70 | Merging stops at the first fragment of another build or with a platform named before, and says which. |
| ReleaseChecks.EntryFails | scripts/publish-desktop-release.ts:67-71 | The entry check stops at the first entry, in order, whose URL is not of this release or whose artifact or signature is missing, and says which. |
| ReleaseChecks.PreflightExactly | scripts/publish-desktop-release.ts:58-82 | The checks pass exactly if the release bears the marker, can be read, and its build follows a valid feed of the channel or there is none; a regression is reported exactly for a readable build that does not. |
| Releases.FaultFree | scripts/publish-desktop-release.ts:67-71 | The entries are checked one by one, URL before artifact; a fault is reported exactly if some entry has one. |
| Releases.OrderCovers | scripts/publish-desktop-release.ts:67 | No entry of the merged feed escapes that loop. |
| Releases.PayloadBytesUnchecked | scripts/publish-desktop-release.ts:67-71 | What is published does not depend on the bytes of any artifact but the fragments. |
| ReleaseChecks.AdvancesExactly | scripts/publish-desktop-release.ts:76-80 | The channel may move to exactly the versions that follow its own by section 11 of SemVer 2.0.0, and to its own version of the same source. |
| ReleaseChecks.StableRefusal | scripts/publish-desktop-release.ts:76-80 | Between stable versions that is: a greater major; or an equal major and a greater minor; or both equal and a greater patch; or the very same version and source. |
| Releases.AdvancesChains | scripts/publish-desktop-release.ts:76-80 | The channel check composes: what may follow a feed may follow everything that feed could follow. |
| Releases.NightlyRefusal | scripts/publish-desktop-release.ts:76-80 | Between nightlies the check refuses exactly those that are not later in (base, date, run), but for the same version of the same source. |
| Publication.PruneOutcome | scripts/publish-desktop-release.ts:17-33 | Pruning deletes exactly the superseded, unchanged nightly drafts whose run ended unsuccessfully. |
| Publication.PrunableExactly | scripts/publish-desktop-release.ts:17-33 | A draft may be pruned exactly if it is an earlier nightly with an eight-digit day and a positive run, tagged at its marker's commit, and that run of a desktop workflow ended without success. |
| Publication.PublicationPrunes | scripts/publish-desktop-release.ts:7-34 | A successful publication makes its own release public, removes exactly those drafts, and leaves every other release as it was. |
| Publication.NightlyGone | scripts/publish-desktop-release.ts:17-33 | After a nightly is published the draft of another nightly is gone exactly if its marker is there with its target as commit, its (base, date, run) is strictly earlier, and its run completed without success. |
| Publication.PublicationOutcome | scripts/publish-desktop-release.ts:57-103 | A publication succeeds exactly when every check passes and then leaves one closed-form store; otherwise it reports the first failing check and changes nothing. |
| Publication.PartWayConverges | scripts/publish-desktop-release.ts:57-98 | From every part-way store the checks pass again with the same feed, and the outcome is the same. |
| Publication.CrashConvergence | scripts/publish-desktop-release.ts:57-98 | Cut a publication that would have succeeded after any number of requests and run it again: the final store equals that of one uninterrupted run. |
| Publication.RemovalWindowForgetsOrder | scripts/desktop-release.ts:128-136 | Cut between a feed's deletion and its post, an older build that would have been refused is published over the newer one. |
| ReleaseApi.Assets | scripts/desktop-release.ts:121-127 | Paging collects the whole listing in order. |
| ReleaseApi.FindByTag | scripts/desktop-release.ts:109-120 | The published release of a tag, else the first draft of that tag on any page, else nothing. |
| ReleaseApi.CollectDrafts | scripts/publish-desktop-release.ts:10-16 | Every draft of every page, before anything is deleted. |
| ReleaseApi.ReleaseServer.UploadFeed | scripts/desktop-release.ts:128-136 | Delete then post: done, or, cut off for want of requests, unchanged or with the old feed gone. |
| ReleaseApi.ReleaseServer.Prune | scripts/publish-desktop-release.ts:7-34 | Removes exactly the drafts of earlier nightlies, tagged at their marker's commit, whose run of a desktop workflow ended without success; cut off, it has removed only such. |
| ReleaseApi.ReleaseServer.Check | scripts/publish-desktop-release.ts:58-82 | The checks in order, entry by entry, decide as specified with the first failing one, and change nothing. |
| ReleaseApi.ReleaseServer.Lookup | scripts/desktop-release.ts:109-120 | Looking a tag up, published or among the listed drafts, finds exactly the release of that tag. |
| ReleaseApi.ReleaseServer.OpenRelease | scripts/publish-desktop-release.ts:83-96 | The feed release is created only once the release has left draft state; cut off, it has done nothing or just the first. |
| ReleaseApi.ReleaseServer.Publish | scripts/publish-desktop-release.ts:57-103 | Every check precedes the first change; done, it leaves the specified store; cut off, a part-way one. Four changes and one per release are always enough. |
| ReleaseApi.ReleaseServer.PublishUntilDone | scripts/publish-desktop-release.ts:57-103 | However often it is cut off, the attempt that gets through leaves what one uninterrupted publication would have; an attempt that may make that many changes gets through. |
| ReleaseProtocol.PlatformsSplit | scripts/private-linux-release.ts:18-35 | A current request builds each platform in exactly one place, hosted or private. |
| ReleaseProtocol.RequestedExactly | scripts/private-linux-release.ts:34-47 | Linux is requested exactly for nightlies, Windows exactly from format 2 on, macOS exactly for format 3. |
| ReleaseProtocol.RunSafe | scripts/publish-desktop-release.ts:7-103 | The invariant of the whole protocol holds in every reachable state of creating, uploading, publishing, pruning, crashing and builder completions in any order. |
| ReleaseProtocol.ChannelFeedsComplete | scripts/publish-desktop-release.ts:57-98 | In every reachable state a channel feed names a published release with the matching marker and, for all six platforms, artifacts of it that exist with their signatures. |
| FeedSignatures.StoredIsLastPosted | scripts/desktop-release.ts:128-136 | In every reachable state, what is stored under any name of a release is what the last upload that posted that name for its version made of its bytes. |
| FeedSignatures.ChannelFeedsSigned | scripts/publish-desktop-release.ts:47-71 | A feed's entry for each platform names the payload stored there and carries the signature of the bytes whose upload last posted the fragment; payload and signature file fit it exactly if both were last posted by uploads of those bytes, and they do if no upload of the platform has changed something without one being completed since. |
| ReleaseProtocol.PublishedOnlyWhenCleared | scripts/private-linux-release.ts:402-410 | A release is public only after the hosted run and every requested private builder of a request for exactly that version and source succeeded. |
| ReleaseProtocol.PublishedReleasesPermanent | scripts/publish-desktop-release.ts:35-56 | No step changes or deletes a published release. |
| ReleaseHistory.ValidRequestExactly | scripts/private-linux-release.ts:42-57 | A request is valid exactly if its format is known, format 1 only for nightlies, its run number positive, its build well-formed, and a nightly's version ends in a day and that run number. |
| ReleaseHistory.StatusExactly | scripts/private-linux-release.ts:128-142 | A run or builder has succeeded, or not, exactly if it ended so. |
| ReleaseHistory.PublishedAfterSuccess | scripts/private-linux-release.ts:402-410 | A release is public only after the run and every requested builder of a valid request for its version and source ended in success. |
| ReleaseHistory.PrunedOnlyIfFailed | scripts/publish-desktop-release.ts:7-34 | In every run a release is only ever removed while a later nightly is published, and only the draft of a nightly whose own run ended without success. |
| ReleaseHistory.AbandonedExactly | scripts/publish-desktop-release.ts:17-30 | In every reachable state the drafts that a nightly's publication removes are exactly those of earlier nightlies, tagged at their marker's commit, whose own run had ended without success. |
| ReleaseHistory.PlanExactly | scripts/desktop-release.ts:71-90 | An upload posts the payload, its signature, for macOS the installer, and last the fragment that describes the payload and carries its signature. |
| ReleaseHistory.FragmentsOfTheRelease | scripts/publish-desktop-release.ts:47-56 | In every reachable state a release holds only fragments of its own version and source. |
| UploadRuns.UploadCompletes | scripts/desktop-release.ts:128-136 | Left alone, an upload needs at most two requests for every name left, and then has replaced exactly those names, whether they were taken before or not. |
| UploadRuns.TakenAgainFails | scripts/desktop-release.ts:128-136 | A name taken again between deletion and post ends the upload and stays as it is. |
| ChannelOrder.OneSourcePerVersion | scripts/publish-desktop-release.ts:35-80 | Whatever crashed, the feeds of one version carry one commit and source, on any channels and at any two times of a run. |
| ChannelOrder.StepGoesBackExactly | scripts/publish-desktop-release.ts:72-98 | A step moves a channel to an older version, and to one the channel check would refuse, exactly if it posts an older build for a feed that a crash had lost. |
| ChannelOrder.ForwardExactly | scripts/publish-desktop-release.ts:72-98 | Over any stretch of any run, whatever crashed before or in it, a channel never gets older between any two states exactly if no such step is taken. |
| ChannelOrder.ChannelsOnlyAdvance | scripts/publish-desktop-release.ts:72-98 | So over a stretch without such a step, of two feeds present the later one is the newer, or the same version of the same source. |
| ChannelOrder.MissingExactly | scripts/desktop-release.ts:128-136 | Between publications a channel that had a feed lacks it exactly if a crash lost it and nothing was posted since. |
| ChannelOrder.PublishingGoesBackExactly | scripts/publish-desktop-release.ts:57-98 | In every reachable idle state, publishing a build whose checks pass lowers its channel's version exactly if the feed is missing beforehand and the build is older than the last one; at the same version the source is the same. |
| ReleaseWitnesses.ChannelGoesBack | scripts/desktop-release.ts:128-136 | A run from an empty store in which a channel ends at an older version than it had, by a post of the older build for a feed that a crash had lost. |
| ReleaseWitnesses.RemovalWindowOpens | scripts/desktop-release.ts:128-136 | A store in which the older build is refused, but published once a publication of the newer one was cut off after seven requests. |
| ReleaseWitnesses.SignatureStopsFitting | scripts/publish-desktop-release.ts:47-71 | A run from an empty store that ends with a public feed whose signature for a platform is not that of the bytes stored there. |
| BuilderGate.ResolveBuilderRun | scripts/private-linux-release.ts:128-142 | Paging judges exactly the first run of the request's title in the whole listing. |
| BuilderGate.PublishGate | scripts/private-linux-release.ts:402-410 | Publishes exactly when the hosted run and every requested builder succeeded; refuses exactly when the hosted run or some builder ended otherwise. |
| BuilderGate.GateIsCleared | scripts/private-linux-release.ts:402-410 | While the statuses are what the builders' listings say, the gate opens exactly on the requests the release protocol calls cleared. |
| BuilderGate.GatedRunsAreRuns | scripts/private-linux-release.ts:297-410 | They always are: from nothing, whatever runs are dispatched and completed and however often publishing is tried through the gate, the releases go through a run of the release protocol, so its guarantees hold. |
| BuilderGate.NothingHeldUp | scripts/private-linux-release.ts:402-410 | Whenever the gate opens, the protocol can start that publication, and it can take every completion. |
| BuilderGate.ArtifactStore.Cleanup | scripts/private-linux-release.ts:105-127 | Removes only handoffs of a published, matching release whose builders all finished; a run that ends has removed all of them, wherever earlier ones were cut off, and one that may delete enough ends. |
| BuilderGate.HandoffExactly | scripts/private-linux-release.ts:105-127 | A handoff comes from a requested builder's first listed run of the request's title, completed, successful and trusted, and is its output for that run and attempt or the Windows builder's qualification. |
| RunnerClient.RequestsSettleOnce | desktop/src/runner-client.ts:141-163 | On every interleaving a request settles at most once, the unsettled requests are exactly those pending with a live timer, every request is written, and no id is written twice. |
| RunnerClient.SettledExactly | desktop/src/runner-client.ts:66-78 | A request is resolved exactly if a successful answer came while it was pending, and rejected exactly if a failed answer, its timeout, a failed write or the runner's exit did. |
| RunnerClient.ExitLeavesNothing | desktop/src/runner-client.ts:66-78 | After an exit every request has settled, and no timer, entry or waiter is left. |
| RunnerClient.ShutdownGuarantees | desktop/src/runner-client.ts:99-135 | A shutdown completes only after the exit was seen, the runner was reported dead or kill was called; it fails only with its kill, leaves no waiter, and is never stuck. |
| RunnerClient.ShutdownExactly | desktop/src/runner-client.ts:99-135 | A shutdown succeeds exactly if the exit or the report of a dead runner came while it raced or its kill succeeded, fails exactly if its kill failed, and kills exactly if its deadline or a failing probe or quit came while it raced. |
| RunnerClient.QuitExactly | desktop/src/runner-client.ts:115-123 | A live runner is told to quit exactly if its shutdown still races when the probe is answered. |
| RunnerClient.KnownExactly | desktop/src/runner-client.ts:99-135 | A shutdown counts as late, dead or exited only after its deadline, that report, or an exit its waiter saw; its deadline comes once. |
| RunnerClient.NoLateQuit | desktop/src/runner-client.ts:115-123 | After the timeout was handled or the exit seen, a late answer sends nothing. |
| RunnerClient.Client.SendRequest | desktop/src/runner-client.ts:141-155 | A new id, entry, timer and line; nothing else changes. |
| RunnerClient.Client.OnTimeout | desktop/src/runner-client.ts:146-149 | The timer's entry goes and its promise is rejected. |
| RunnerClient.Client.OnSendFailed | desktop/src/runner-client.ts:155-161 | A failed write settles its request only if that is still pending. |
| RunnerClient.Client.HandleFrame | desktop/src/runner-client.ts:169-202 | Only a response to a pending request settles anything. |
| RunnerClient.Client.OnRunnerExit | desktop/src/runner-client.ts:68-77 | Rejects and clears everything pending and wakes every waiter. |
| RunnerClient.Client.OnAlive | desktop/src/runner-client.ts:115-123 | Resuming after the probe sends quit only for a live runner, before timeout and exit. |
| RunnerClient.Client.OnRaceLost | desktop/src/runner-client.ts:125-129 | A rejection loses the race at most once, and then kills. |
| PresenceQueue.PollsSerialized | desktop/src/discord-presence.ts:4-30 | Never two polls in flight, never more polls than calls, and a promise settles one way at most. |
| PresenceQueue.ResultsAreFresh | desktop/src/discord-presence.ts:10-30 | A promise resolves with the result of a poll that started at or after every call sharing it. |
| PresenceQueue.UnsettledIsPolling | desktop/src/discord-presence.ts:10-30 | A promise handed out and not settled has a poll working for it. |
| PresenceQueue.RejectionRecovers | desktop/src/discord-presence.ts:18-29 | After a rejected poll the next call starts a drain of its own. |
| PresenceQueue.StuckExactlyAfterThrow | desktop/src/discord-presence.ts:10-28 | The queue is stuck exactly when a poll threw synchronously on a call that found it idle. |
| PresenceQueue.SettledExactly | desktop/src/discord-presence.ts:10-30 | A promise resolves with a poll's result exactly if that poll of its drain brought one and no call had come since it started; it is rejected exactly if a poll of its drain was, or one threw. |
| PresenceQueue.CallsShare | desktop/src/discord-presence.ts:23-29 | A call gets the promise of the drain under way, or makes the next one and polls at once. |
| PresenceQueue.Queue.Refresh | desktop/src/discord-presence.ts:23-29 | A call starts a drain or shares the one in flight. |
| PresenceQueue.Queue.OnPollResolved | desktop/src/discord-presence.ts:13-20 | The drain polls again exactly if calls arrived meanwhile. |
| PresenceQueue.Queue.OnPollRejected | desktop/src/discord-presence.ts:18-20 | A rejection ends the drain and frees the queue. |
| ConnectionQueue.OneAtATimeInOrder | desktop/src/main.ts:1354-1359 | Instance changes and network toggles run one at a time in call order whether or not earlier ones failed, and the switching counter is the number of unsettled changes. |
| ConnectionQueue.NeverStalls | desktop/src/main.ts:1354-1359 | If nothing runs, the first unsettled task can begin. |
| ConnectionQueue.TogglesStayLocal | desktop/src/main.ts:430-462 | A toggle that goes on to stop or start the local server runs entirely in local mode. |
| ConnectionQueue.TaskExactly | desktop/src/main.ts:430-462 | A task settles as its own end says, and a toggle goes on exactly if it began in local mode with its other checks passed. |
| ConnectionQueue.ModeExactly | desktop/src/main.ts:1410 | The mode is the target of the change applied last. |
| ConnectionQueue.Shell.ChangeInstanceConnection | desktop/src/main.ts:1354-1359 | Counts the change at once and attaches it to the end of the queue. |
| ConnectionQueue.Shell.ToggleRemoteAccess | desktop/src/main.ts:430-462 | Attaches the toggle to the same queue. |
| RemoteAuthorization.OneAttemptAtATime | desktop/src/main.ts:836-842 | At most one attempt is between its start and its end. |
| RemoteAuthorization.SupersededNeverWrites | desktop/src/main.ts:855-888 | An attempt that is no longer the current one never writes remoteSnapshot again. |
| RemoteAuthorization.LatePollWrites | desktop/src/main.ts:819-829 | A poll whose starting snapshot was replaced at any time in between writes exactly if it started with none, there is none again when it returns, and its instance is selected; otherwise nothing, even if a snapshot of the same state is there. |
| RemoteAuthorization.LatePollFollowsSwitch | desktop/src/main.ts:1411 | When it does write, an instance was selected in between and no snapshot was set since. |
| RemoteAuthorization.PollOutlivesSwitch | desktop/src/main.ts:819-829 | A run in which that happens: the answer of a poll begun before the selection is shown after it. |
| RemoteAuthorization.StrandedExactly | desktop/src/main.ts:844-888 | "Authorizing" is stuck exactly when the last unanswered cancellation failed with no current attempt on the selected instance, and since then nothing was selected, disconnected, cancelled or started there. |
| RemoteAuthorization.AuthorizingIsAttended | desktop/src/main.ts:844-888 | While "authorizing" shows, an unanswered cancellation or the current attempt, still before its native answer, will end it, exactly unless it is stuck so. |
| RemoteAuthorization.FailedCancelStrands | desktop/src/main.ts:844-853 | A run in which a failed cancellation leaves "authorizing" with no attempt, no cancellation and no poll that may start. |
| RemoteAuthorization.CurrentStartedAfterCancel | desktop/src/main.ts:844-860 | An attempt that is current at any time after a cancellation was started after it. |
| RemoteAuthorization.CancelOverwritesExactly | desktop/src/main.ts:844-853 | The answer to a cancellation overwrites the snapshot of a current attempt on the selected instance exactly if it reports success, that attempt was started there after the cancellation, and "authorizing" still shows. |
| RemoteAuthorization.LateCancelHidesNewAttempt | desktop/src/main.ts:844-853 | A run in which the answer to an old cancellation overwrites a newer attempt's snapshot while that attempt is under way. |
| AuthorizationOutcomes.ShownExactly | desktop/src/main.ts:819-888 | The shell shows a state exactly if the last event that showed or cleared anything showed it: an attempt starting on the selected instance, the native answer to a current one, a failure or an end without an answer, a cancellation's answer, a poll nothing came in between of, a disconnect. |
| AuthorizationOutcomes.CurrentExactly | desktop/src/main.ts:844-888 | An attempt's id is the current one exactly if it started and since then no other started, the user did not cancel, and it did not end while current. |
| AuthorizationOutcomes.TaskExactly | desktop/src/main.ts:836-842 | The shared task is an attempt's exactly while that has not finished, so a new one can start exactly if none is under way. |
| AuthorizationOutcomes.AttemptGoesOn | desktop/src/main.ts:855-888 | An attempt goes on to its native connect, and from its answer to storing the identity, exactly if it is current when it resumes. |
| AuthorizationOutcomes.WaitsOnlyIfCurrent | desktop/src/main.ts:855-874 | It waits for either only after an event that found it current. |
| AuthorizationOutcomes.PollRemembers | desktop/src/main.ts:819-823 | A poll under way remembers the instance and the snapshot object of its start. |
| RemoteAuthorization.Shell.ConnectDesktopAuthorization | desktop/src/main.ts:836-842 | Shares the attempt under way or starts one. |
| RemoteAuthorization.Shell.OnConnected | desktop/src/main.ts:866-874 | The native answer is stored only by the current attempt for the selected instance. |
| RemoteAuthorization.Shell.OnFailure | desktop/src/main.ts:875-887 | An exception marks the snapshot only for the current attempt. |
| RemoteAuthorization.Shell.OnCancelled | desktop/src/main.ts:844-850 | The cancellation's answer rewrites any snapshot that shows "authorizing". |
| RemoteAuthorization.Shell.OnPolled | desktop/src/main.ts:819-829 | A poll writes only over the very snapshot object it started from. |
| ScreenCapture.OneEnableAtATime | desktop/src/main.ts:901-932 | At most one enable is under way. |
| ScreenCapture.OvertakenNeverEnables | desktop/src/main.ts:901-943 | An enable overtaken by a disable or a later enable stays overtaken and never touches the setting. |
| ScreenCapture.DisableLasts | desktop/src/main.ts:934-943 | Once disabled, the setting stays off and no native connection appears until an enable is started anew, whatever enables, restores and connects were under way. |
| ScreenCapture.OvertakenLeavesNoConnection | desktop/src/main.ts:901-943 | An enable that ended leaves a native connection of its own only if it turned the setting on and no disable came since it started. |
| ScreenCapture.OffMeansDisconnected | desktop/src/main.ts:901-963 | With the setting off, a native connection exists only while the call that made it has yet to resume and take it down. |
| CaptureOutcomes.EnableExactly | desktop/src/main.ts:901-932 | An enable is given up exactly if the user declined, a step of it failed, or it was not the current one when it resumed; it turned the setting on exactly if its native connect succeeded while it was current. |
| CaptureOutcomes.ReachedExactly | desktop/src/main.ts:908-924 | An enable that is not given up has come to each point exactly if the event that leads there found it current: allowed by the user, its sign-in known, signed in, reset, connected. |
| CaptureOutcomes.OnlyIfAllowed | desktop/src/main.ts:908-913 | Past its confirmation, with the setting turned on, or owning the native connection: the user had allowed it. |
| CaptureOutcomes.DeclinedStaysEnded | desktop/src/main.ts:913 | A declined enable is ended at once and for ever, and its end changes neither the setting nor the native side. |
| CaptureOutcomes.CurrentEnableConnects | desktop/src/main.ts:922-928 | An enable still current when its native connect succeeds had been allowed and ends with the setting on its origin; and with its connection live, unless capture was disabled natively when the connect ran or a restore or change of instance interfered. |
| CaptureOutcomes.OldRestoreTakesDown | desktop/src/desktop-capture.ts:21-26 | A run in which an old restore's connect takes down a newer enable's connection. |
| CaptureOutcomes.SettingChanges | desktop/src/main.ts:901-943 | Only a successful current enable turns the setting on, for its own origin. |
| CaptureOutcomes.ConnectionChanges | desktop/src/main.ts:901-963 | Exactly which events install, keep or remove the native connection and the native disable. |
| CaptureOutcomes.SelectionChanges | desktop/src/main.ts:901-943 | A switch counts until it ends, the page moves, and only disabling and an accepted enable overtake what was current. |
| CaptureOutcomes.FlagsExactly | desktop/src/main.ts:901-963 | Each flag is up exactly while a call of its kind is under way, of which there is one at most, so none blocks the next for good. |
| CaptureOutcomes.StartsExactly | desktop/src/main.ts:901-907 | A click starts an enable exactly if no switch is under way, none is running and capture is off there; it is then the current one. |
| CaptureOutcomes.RestoreConnectsExactly | desktop/src/desktop-capture.ts:20-24 | A restore goes on to connect exactly if its native status allows it, it is still wanted, and there was neither a connection nor a native disable when it started. |
| ScreenCapture.Shell.EnableDesktopCapture | desktop/src/main.ts:901-907 | Starts an enable unless one runs, a switch is under way or capture is on here. |
| ScreenCapture.Shell.OnConfirmed | desktop/src/main.ts:913 | Only an allowed enable that is current goes on to poll. |
| ScreenCapture.Shell.OnSignInKnown | desktop/src/main.ts:914-920 | A current enable authorizes, or, if signed in, resets the native side. |
| ScreenCapture.Shell.OnAuthorized | desktop/src/main.ts:917-920 | A current enable resets the native side after the sign-in. |
| ScreenCapture.Shell.OnReset | desktop/src/main.ts:921-922 | A current enable connects after the reset. |
| ScreenCapture.Shell.DisableDesktopCapture | desktop/src/main.ts:934-943 | Overtakes every enable, clears the setting and disconnects. |
| ScreenCapture.Shell.OnEnableConnected | desktop/src/main.ts:922-928 | After the connect, a current enable sets the setting and an overtaken one disconnects. |
| ScreenCapture.Shell.OnStatus | desktop/src/desktop-capture.ts:20 | A restore connects only if wanted, clear at its start and capable. |
| ScreenCapture.Shell.OnRestoreConnected | desktop/src/desktop-capture.ts:21-26 | A restore that is no longer wanted disconnects what it connected. |
| BundleFiles.WalkMeaning | scripts/build-server.ts:68-93 | The walk fails exactly if following some names from the root meets a dangling link, something outside the root, something neither file nor directory, or a directory already passed on the way; otherwise it collects every path that leads to a file, once, with that file's bytes. |
| BundleFiles.VisitMeaning | scripts/build-server.ts:72-90 | The same for every directory reached by any chain of names, the induction that also bounds the recursion. |
| BundleFiles.InsideIsPrefix | scripts/build-server.ts:77-78 | On canonical paths the string test asks exactly whether the target is the root or lies below it, unless the root is the file system's own. |
| BundleFiles.Collector.VisitDirectory | scripts/build-server.ts:72-90 | The recursive visitor throws or stores exactly what the walk collects, keeping what was stored before. |
| BundleFiles.Collector.Collect | scripts/build-server.ts:68-93 | The resulting map is exactly the paths that lead to files, with their bytes, and the executables are exactly those with an execute bit, each once. |
| IslandSelect.BuildDeclarations | frontend/scripts/bench-html-islands.ts:13-23 | Every declared name stands for the last statement declaring it, and no other name for any. |
| IslandSelect.MentionsExactly | frontend/scripts/bench-html-islands.ts:29-33 | A statement mentions a name exactly if an identifier of that text stands anywhere in it. |
| IslandSelect.Selector.Select | frontend/scripts/bench-html-islands.ts:25-34 | Terminates; selects the name's statement, closes what it adds under mentions, and adds nothing a closed set around the name could do without. |
| IslandSelect.SelectedIsReached | frontend/scripts/bench-html-islands.ts:24-35 | From an empty start the selected statements are exactly those some chain of mentions leads to from the name. |
| IslandSelect.Extract | frontend/scripts/bench-html-islands.ts:13-36 | The statements run are exactly those reachable from the name, in source order. |
| SharpInstall.InstallOutcome | src/sharp-preflight.ts:43-88 | Whatever steps fail and whatever the manifest lists, the installer returns with the listed files outside "previous" in place, or throws with the directory as it was or so installed unless moving the old one back failed too; after a crash it is as it was, absent or so installed. What it returns is valid exactly if it was before or nothing is listed under "previous". |
| SharpInstall.InstalledIsValid | src/sharp-preflight.ts:33-41 | If nothing is listed there, a directory with the listed files in place is valid. |
| SharpInstall.CleanupExactly | src/sharp-preflight.ts:64-87 | Once the temporary directory is made, the cleanup removes it whether the installation succeeded or threw, without changing its result; if the cleanup fails, the installer throws after all. |
| SharpInstall.OnlyCrashesCrash | src/sharp-preflight.ts:43-88 | If no step is cut off by a crash, the installer returns or throws. |
| SharpInstall.LostOnlyByRestore | src/sharp-preflight.ts:76-84 | A directory is lost to an exception only if moving it aside succeeded and both moving the new one in and moving it back failed. |
| SharpInstall.UndisturbedRun | src/sharp-preflight.ts:43-88 | Without faults a complete archive ends as a valid directory with nothing left behind, exactly when no listed name conflicts with another and none lies under "previous". |
| SharpInstall.RerunRecovers | src/sharp-preflight.ts:43-88 | After any run, crashed or not, an undisturbed one ends with a valid directory. |
| SharpInstall.MovedBack | src/sharp-preflight.ts:78-83 | What is moved aside into the new tree comes back whole. |
| SharpInstall.PopulateComplete | src/sharp-preflight.ts:66-72 | When the loop ends, every listed file is there with the archive's verified content. |
| SharpInstall.Workspace.InstallAndroidSharp | src/sharp-preflight.ts:43-88 | The installer's statements, with its flag, nested handlers and cleanup, do exactly what the theorems are about. |
| SharpInstall.Workspace.SwapIn | src/sharp-preflight.ts:75-85 | The two renames, the rollback and the removal of the previous installation, for every fault. |
| ShellQuote.QuotedValue | scripts/build-linux-appimage-remote.ts:47 | Reading a quoted value anywhere outside quotes adds exactly the value to the current word, by sections 2.2.1, 2.2.2 and 2.3 of the POSIX Shell Command Language. |
| ShellQuote.CommandRoundTrip | scripts/build-linux-appimage-remote.ts:77-79 | The remote shell reads `bash -s --` followed by exactly the arguments given, empty ones and ones with quotes or newlines included. |
| ShellQuote.CommandsDistinct | scripts/build-linux-appimage-remote.ts:77-79 | Different argument lists never share a command line. |
| UploadBatches.PackIsOptimal | scripts/migrate-sillytavern.ts:491-509 | No way of splitting the files into allowed consecutive requests uses fewer of them. |
| UploadBatches.BuildBatches | scripts/migrate-sillytavern.ts:491-509 | The loop splits the files into non-empty consecutive batches within 50 files and 30 MiB unless single, and with the fewest batches possible. |
| UploadBatches.FitsExactly | scripts/migrate-sillytavern.ts:491-509 | A request holds one file, or at most 50 of together at most 31457280 bytes. |
| UploadBatches.Tally | scripts/migrate-sillytavern.ts:541-558 | Each kind of result goes to its own counter. |
| UploadBatches.Upload | scripts/migrate-sillytavern.ts:511-601 | The counters are those of the results used and the files that could not be read. |
| UploadBatches.EveryFileCounted | scripts/migrate-sillytavern.ts:511-601 | Imported, skipped and failed add up to the files plus what listed responses hold too much of; if each holds one result per file sent, exactly to the files. |
| UploadBatches.CountersExactly | scripts/migrate-sillytavern.ts:511-601 | Imported and skipped are the numbers of results of their kind; failed is that of the rejected results and of the files that could not be read. |
| PngChara.ReadPngCharaName | scripts/migrate-sillytavern.ts:211-246 | The byte walk, in range and with strict progress, gives the first chunk that settles the matter before IEND. |
| PngCards.CardExactly | scripts/migrate-sillytavern.ts:226-239 | A chunk is a card exactly if its type is tEXt, zTXt or iTXt and "chara" or "ccv3" stands before the first zero byte of its data, high bits aside; the walk takes nothing from any other chunk. |
| PngCards.OthersChangeNothing | scripts/migrate-sillytavern.ts:219-239 | In a written PNG, chunks that are neither IEND nor cards change nothing in what is read. |
| PngCards.FirstCardIsRead | scripts/migrate-sillytavern.ts:219-239 | The first card with anything to say behind such chunks gives the result: its keyword and what it says, or that it cannot be inflated. |
| PngCards.PlainCardIsRead | scripts/migrate-sillytavern.ts:219-251 | So a tEXt chunk "chara" behind other chunks is read as exactly the bytes after its keyword. |
| PngCards.NotPngExactly | scripts/migrate-sillytavern.ts:211-218 | Only a file that starts with the eight signature bytes is read as a PNG. |
| PngCards.CutChunk | scripts/migrate-sillytavern.ts:221-224 | A last chunk that is cut short is read with what there is of its data. |
| PngChara.FirstDecodable | scripts/migrate-sillytavern.ts:226-239 | The first decodable card is what is found, exactly when no card before it makes inflate throw. |
| PngChara.BrokenCardHidesNext | scripts/migrate-sillytavern.ts:234-239 | A card that does not inflate hides a readable one behind it. |
| PngChara.WrittenPng | scripts/migrate-sillytavern.ts:219-231 | For every list of chunks written as section 5.3 of the W3C PNG specification lays down, the walk decides by exactly those chunks. |
| PngChara.PlainReadsBack | scripts/migrate-sillytavern.ts:249-251 | A tEXt card reads back as written. |
| PngChara.CompressedReadsBack | scripts/migrate-sillytavern.ts:252-254 | A zTXt card reads back as what inflate returns. |
| PngChara.InternationalReadsBack | scripts/migrate-sillytavern.ts:255-265 | An iTXt card, compressed or not and with any language and translated keyword, reads back as its text. |
| PngCards.PlainReads | scripts/migrate-sillytavern.ts:249-251 | Whatever follows the keyword of a tEXt card is its text. |
| PngCards.CompressedReads | scripts/migrate-sillytavern.ts:252-254 | A zTXt card says what inflate makes of the data behind the method byte, nothing if there is none, or throws. |
| PngCards.InternationalReads | scripts/migrate-sillytavern.ts:255-265 | An iTXt card says the text behind its two fields, inflated if its flag is set. |
| PngCards.InternationalCut | scripts/migrate-sillytavern.ts:255-265 | It says nothing if one of the two fields does not end. |
| MachO.ValidateIntelMachO | scripts/lancedb-macos-native.ts:47-70 | Accepts exactly the x86_64 dylibs whose announced commands fit in the buffer, are all for macOS and end with a minimum version of at most 13.0; each error names what is wrong after the commands before it. |
| MachO.HeaderExactly | scripts/lancedb-macos-native.ts:48-54 | The header test accepts exactly the bytes of an x86_64 dylib's header, with any last byte of the CPU subtype. |
| MachO.RunsExactly | scripts/lancedb-macos-native.ts:62-69 | The commands are acceptable exactly if every build version names macOS and the last build or minimum version is at most 13.0. |
| MachO.SameCommands | scripts/lancedb-macos-native.ts:56-66 | The bytes decide the commands: of two readings of the same buffer one starts the other. |
| MachO.Turn | scripts/lancedb-macos-native.ts:56-66 | One turn reads one whole command and keeps the last minimum, or the library is not acceptable. |
| OwnershipBackfill.BuildIndex | scripts/backfill-character-world-book-ownership.ts:160-196 | The index says of every book exactly which characters, personas and chats refer to it, each once. |
| OwnershipBackfill.IndexedExactly | scripts/backfill-character-world-book-ownership.ts:160-196 | The index holds exactly the characters whose list of books, or in its absence single book, names the book, the personas it is attached to and the chats whose list names it. |
| OwnershipBackfill.Record | scripts/backfill-character-world-book-ownership.ts:171-190 | One loop adds exactly the rows' references of its kind and leaves the other kinds alone. |
| OwnershipBackfill.SetAsideExactly | scripts/backfill-character-world-book-ownership.ts:204-216 | A book is ignored exactly if its metadata does not say it came from a character, and tagged exactly if it does and is managed already. |
| OwnershipBackfill.CandidatesAreLegacy | scripts/backfill-character-world-book-ownership.ts:204-245 | A book is a candidate for a character exactly when the rows alone say so. |
| OwnershipBackfill.ReasonsExact | scripts/backfill-character-world-book-ownership.ts:218-253 | Every ambiguous book has a reason, and each of the seven is given exactly when the rows bear it out. |
| OwnershipBackfill.AmbiguousHasReason | scripts/backfill-character-world-book-ownership.ts:247-253 | The fallback text for a book without reasons is never used. |
| OwnershipBackfill.EveryBookOnce | scripts/backfill-character-world-book-ownership.ts:198-254 | Every book is counted in exactly one of ignored, tagged, candidate and ambiguous. |
| OwnershipBackfill.ListsExact | scripts/backfill-character-world-book-ownership.ts:198-254 | The lists hold exactly the books of their class. |
| OwnershipBackfill.ScanBooks | scripts/backfill-character-world-book-ownership.ts:160-254 | A run reports that classification. |
| OwnershipBackfill.Apply | scripts/backfill-character-world-book-ownership.ts:288-300 | Marks exactly the candidates and changes nothing else. |
| OwnershipBackfill.SecondRun | scripts/backfill-character-world-book-ownership.ts:288-300 | Run again after applying, it finds no candidates, the same ambiguous books for the same reasons, and the candidates tagged. |
| Sampling.EvenlySample | scripts/bench-thumbnail-codecs.ts:92-99 | Every branch: the values themselves, none, the first, or the values at the rounded positions. |
| Sampling.EvenSpread | scripts/bench-thumbnail-codecs.ts:92-99 | The sample runs from the first value to the last, each the nearest to its exact position, strictly increasing, with gaps of only the floor or the ceiling of (n - 1) / (limit - 1). |
| Sampling.NearestRank | scripts/bench-thumbnail-codecs.ts:71-75 | For a fraction in (0, 1] the percentile is the least value that at least n * f values are at or below, and fewer than n * f lie below it. |
| Sampling.ClampedRank | scripts/bench-thumbnail-codecs.ts:71-75 | Other fractions give the least or the greatest value. |

## Left out

Assumptions about the surroundings:

- Publications are serialized: one workflow group runs them (`.github/workflows/desktop-linux-complete.yml`).
  Uploads to a tag have finished before that tag is published, and no platform of a version is uploaded twice at
  once. Run and builder statuses are final for an attempt.
- The shell's callbacks run one at a time. Native commands that answer at once take effect when called; the
  capture connect takes effect later on its own. Native disable and disconnect succeed.
- The file system does not change during the payload walk. The installer is the only writer of its directory.

Not modelled:

- HTTP, GitHub's responses beyond what they change, JSON, base64, SHA-256, inflate, X.509, tar and zip: values or
  parameters. Bodies, tags, URLs and asset names of releases are structured values.
- ReleaseVersionDenotes: patch numbers of 2^53 and more, where JavaScript rounds; numerals with leading zeros,
  which the regular expressions admit and SemVer does not.
- PublicationOutcome: the order of the entries inside one fragment is the fixed order of the platforms, which only
  decides between two failing entries of one fragment; platform names other than the six.
- PruneOutcome: a request that fails transiently during pruning, which the code logs and skips.
- Transient failures of the read requests of a publication: they change nothing, as a cut before the first change.
- GatedRunsAreRuns: a title is dispatched once, and a run's attempt and the outcome of a completed builder run do
  not change.
- Request identity checks (`validateParent`, `readRequest`) and the payload verification of
  `scripts/private-linux-release.ts`: long conjunctions of equality tests.
- Cleanup: the number of bytes it reports.
- ChannelFeedsComplete: what requests of formats 1 and 2 had hosted builders build, which the current source no
  longer says.
- `poll` and window creation failures outside the queues; `startServer` called from the menu outside the
  connection queue, so nothing is claimed about how many local servers run.
- The order in which settings are saved to disk, and menu and tray text.
- OffMeansDisconnected: the menu refresh that clears the setting when the native side reports capture disabled is
  one step; a status answer that arrives late is not.
- Restoring capture: the retry delay and the busy checks that only make restoring rarer.
- Collect: the sort order of directory entries is taken as given; on Windows a name holding a slash cannot occur.
- CommandRoundTrip: arguments with NUL, which cannot be passed to a process at all; lone UTF-16 surrogates. The
  rest of the command line's option parsing is settled by reading it.
- Upload: the map from file names to character ids, the texts of failures, and the progress display. That
  display adds only the readable files of an accepted batch (line 595), so it can stop short of the total. A
  listed response whose entries are not objects would throw half counted and be sent again file by file.
- ReadPngCharaName: checksums are not compared, as in the source; what base64 and JSON make of the text.
- EvenSpread: floating point; positions and fractions are exact here. So are those of NearestRank.
- Sane: the tests `readManifest` makes on ".", ".." and backslashes in names; what it accepts is known here only to
  have distinct, non-empty names, and no result needs more.
- InstallOutcome: temporary directories that earlier crashes left behind, which nothing removes or reads.
- `includeSnapshotPath`, `diagnosticVersion`, argument parsers, other benchmarks and the rest of the server and
  frontend: easy, or without hard invariants.
