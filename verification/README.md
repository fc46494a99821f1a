# Dashcam: verified models of the stateful cores

The dashcam is a Raspberry Pi recorder with a local web service, an installer and a set of recovery and validation
helpers.  This project models its small stateful protocols in Dafny and proves what they promise over whole runs,
stop points and power losses.  `dafny verify dfyconfig.toml` checks everything.

| file | what it models |
|---|---|
| `RecoveryJournal.dfy` | the restartable replacement of a refused bootstrap journal: archive, "prepared" audit, atomic replacement, "complete" audit; down to system calls and what a power loss leaves of them |
| `Sessions.dfy` | the bounded session store with lazy expiry, against a store that drops each session the instant it expires |
| `Lru.dfy`, `RateLimiter.dfy` | the per-key request limiter (a sliding-window log, despite its name), against the full history of checks |
| `WebPolicy.dfy` | the HTTP policy layer, composed of the session store and two limiters |
| `Clips.dfy` | the life of one clip: lifecycle graph, protection, download leases |
| `Thresholds.dfy` | free-space hysteresis over sequences of reports |
| `ApProfile.dfy`, `NetworkMode.dfy` | the printed access-point profile that is read back, and the boot-time choice of a network mode |
| `Installer.dfy`, `InstallFiles.dfy`, `InstallPower.dfy` | the application installer: its effects and where it may be repeated; the staging trees, temporaries and renames behind them, at every stop point; and what a power loss leaves of them |
| `ArmCmdline.dfy`, `ArmFiles.dfy` | arming the kernel command line: the bytes and tokens; and the files, down to system calls and power losses |
| `Filler.dfy` | filling a loop volume to just below the reclaim threshold |
| `IdrScan.dfy` | the byte scan for H.264 IDR units |
| `OrderedDict.dfy`, `Common.dfy` | Python's insertion-ordered dictionary and shared types |

Code that changes state in place is modelled as classes and methods with the source's steps, and each method is proved
against a specification function; the theorems are lemmas about that function over all runs.  Code made of expressions
is modelled as functions.

## What is assumed of the outside

* Times are non-negative reals (integer nanoseconds for clips).  Where a theorem needs a clock that does not go back,
  its hypothesis says so; what happens when it does is stated for the limiter (`RegressionIsAccepted`).
* Hashes are arbitrary functions, parsed JSON documents are values, random tokens are sequences given by the caller.
* Commands, sleeps and the file store of the network selector answer as they like.  A command may exceed its timeout,
  and a sleep the time asked, by at most `slack` seconds; a sleep lasts at least as long as asked, as `time.sleep`
  promises, and without that the polling loop could be made to run for ever in no time.
* Recovery, arming and the installer have two failure models that are kept apart.  A killed process leaves the visible files, except
  that the file being written may be cut off.  A power loss leaves what was forced to the disk, any part of the directory
  changes not yet forced, and other contents of files not yet forced.
* When the installer begins, what it finds is on the disk, and so are the directories of the managed files and of the
  journal: the checks before an install read other files in them (`install.py:753-766`).
* The recovery's four byte strings are distinct and not empty, and what a cut-off or unsynced file of the recovery holds
  is none of the four: a file that happens to hold one of them is not torn for the protocol.

## Where the code differs from what one would expect

Each of these is proved, with an input that shows it.

* Recovery: a dry run looks at the archive and the audit but not at the temporaries, so it reports ready on a torn
  temporary that an apply refuses, and on no other torn file (`DryRunMissesTornTemporaries`,
  `TornTemporaryHappens`).
* Recovery: an accepted apply replaces the journal and then refuses exactly if the journal is still the source, nothing
  foreign stands in the way of its replacement, and the audit's temporary is foreign
  (`RefusesAfterReplacingExactlyWhen`, `EmptyAuditTemporary`).
* Recovery: convergence after a kill holds except when a helper file was left cut off, and then no later run changes
  anything (`KillConvergence`, `TornArchiveHappens`).
* Arming: the 16 KiB bound is checked on the result, after the replacement.  A command line that no longer fits is
  armed although the run is refused, and no later run can read it (`OversizeIsArmedAndRefused`, `OversizeHappens`).
* Arming: the backup directory's own entry is not forced to the disk before the rename.  A power loss can leave an armed
  command line without its backup exactly if the directory had to be made and the apply got to the replacement
  (`BackupSurvivesExactlyWhen`, `FreshDirectoryCanBeLost`).
* Installer: an install that stopped when some but not all differing managed files were replaced cannot be repeated
  (`RepeatableExactlyAtNoneOrAll`, `StoppedHalfwayHappens`).  From the first replaced file until the journal is written,
  only a bundle that asks for the very files found can be installed: when all files are new, the install itself can be
  repeated, but the release it came from cannot be installed again (`MixedFilesBlockEveryBundle`,
  `UnjournalledHappens`).
* Installer: neither a new release, apart from its marker, nor its name nor the `current` link is forced to the disk.
  After a run that finished, a power loss can leave a journal and a link that name a release of which nothing is there,
  or its marker and an environment that cannot be used, exactly if the run built that release
  (`JournalCanOutliveItsRelease`).  A link to nothing then blocks every further install
  (`DanglingLinkBlocksEveryPackage`, `FirstInstallCanBlockAllOthers`).  The managed files are safe
  (`PowerCutsKeepTheFiles`), and when an install can be repeated after a power loss is stated exactly
  (`PermittedAfterCutExactlyWhen`).
* Hysteresis: a no-space report that comes while the mode is normal and free space is not low waives the price of two
  switches, itself and the one back, so such reports can make the mode flap at no cost (`SwitchesArePaidFor` over every
  run, `EarlyReportsFlapForFree`).
* Limiter: forgetting crowded-out keys forgets their acceptances.  Every window holds at most `limit` acceptances of a
  key as long as fewer other keys are checked in it than there are places; for every configuration and every key, one
  other key more makes a window with `limit + 1` possible (`BoundedExactlyBelowThePlaces`, `CrowdingBreaksTheBound`).
* HTTP layer: `handle` is documented not to expose exceptions; up to the dispatch, and apart from errors inside the
  parsing of a request, one escapes in exactly three situations (`CrashesExactlyWhen`, and `LoginCrashHappens`,
  `CsrfCrashHappens`, `TimeoutCrashHappens` for the three).  The WSGI adapter, which is not part of this model, answers
  them with status 500.
* HTTP layer: the login limiter's key has a prefix, so clients with names of more than 122 characters are admitted by
  the request limiter and always refused by the login limiter (`LongNamesCannotLogIn`, `LongNameHappens`).

## Model

| member | source | states |
|---|---|---|
| RecoveryJournal.Continue | deploy/bootstrap/ssh-dev/recover-exfat-reconciliation-refusal.py:396-461 | on any accepted files: after one file operation a restarted run is accepted and has exactly the remaining operations to do |
| RecoveryJournal.RunsToTheEnd | deploy/bootstrap/ssh-dev/recover-fssize-refusal.py:337-402 | an uninterrupted apply from any intermediate state ends with the replaced journal, the exact archive and the complete audit, and a further apply has nothing to do |
| RecoveryJournal.TornRefuses | deploy/bootstrap/ssh-dev/recover-fssize-refusal.py:297-317 | if a helper file was left cut off, every later run refuses and changes nothing |
| RecoveryJournal.EveryImage | deploy/bootstrap/ssh-dev/recover-exfat-reconciliation-refusal.py:356-461 | after any number of killed applies the files are an intermediate state of the protocol, or one with the next helper file cut off |
| RecoveryJournal.SeenIsKilled | deploy/bootstrap/ssh-dev/recover-exfat-reconciliation-refusal.py:356-461 | whatever is visible at any moment of an apply, between system calls or while a file is written, is one of the kill images that the theorems quantify over |
| RecoveryJournal.KillConvergence | deploy/bootstrap/ssh-dev/recover-exfat-reconciliation-refusal.py:388-461 | after any number of kills the next apply refuses exactly if a helper file was left cut off; otherwise it completes the recovery and a further one has nothing to do |
| RecoveryJournal.TornArchiveHappens | deploy/bootstrap/ssh-dev/recover-exfat-reconciliation-refusal.py:356-366 | a first apply killed while it writes the archive leaves a file at which every later run refuses |
| RecoveryJournal.NoStepIsRepeated | deploy/bootstrap/ssh-dev/recover-fssize-refusal.py:329-402 | however often applies are killed between operations, the operations still to do are exactly those of the first run without the ones already performed (the decreasing measure) |
| RecoveryJournal.CreateLoss | deploy/bootstrap/ssh-dev/recover-exfat-reconciliation-refusal.py:356-366 | the system calls of an exclusive creation make the file durable, and a power loss inside them leaves it missing, whole or cut off, and touches nothing else |
| RecoveryJournal.OpLoss | deploy/bootstrap/ssh-dev/recover-exfat-reconciliation-refusal.py:356-385 | every file operation is durable when it returns, and a power loss inside it leaves what a kill inside it leaves |
| RecoveryJournal.PowerLossIsAnImage | deploy/bootstrap/ssh-dev/recover-exfat-reconciliation-refusal.py:396-461 | a power loss at any system call of an apply leaves a disk that a kill of that apply could have left |
| RecoveryJournal.EveryDisk | deploy/bootstrap/ssh-dev/recover-fssize-refusal.py:337-402 | the disks found by successive applies, each cut by a power loss, are a sequence that kills could have produced |
| RecoveryJournal.PowerLossSafety | deploy/bootstrap/ssh-dev/recover-exfat-reconciliation-refusal.py:356-461 | on every disk after any number of power losses: a replaced journal implies the exact archive and a prepared or complete audit, a complete audit implies the replaced journal, and the source bytes are in the journal or the archive |
| RecoveryJournal.KillSafety | deploy/bootstrap/ssh-dev/recover-fssize-refusal.py:337-402 | the same order holds among the visible files after any number of kills |
| RecoveryJournal.ApplyOutcome | deploy/bootstrap/ssh-dev/recover-exfat-reconciliation-refusal.py:396-461 | on arbitrary files: reported success means all three files are as promised; a refusal has changed the journal exactly if the files were accepted, the source journal could be replaced and the audit's temporary is foreign, and then to the replacement |
| RecoveryJournal.RefusesAfterReplacingExactlyWhen | deploy/bootstrap/ssh-dev/recover-exfat-reconciliation-refusal.py:454-460 | an accepted apply refuses after changing the journal exactly if the journal is the source, its temporary is absent or right, and the audit's temporary is foreign |
| RecoveryJournal.EmptyAuditTemporary | deploy/bootstrap/ssh-dev/recover-exfat-reconciliation-refusal.py:369-374 | an untouched refused journal beside an empty audit temporary: the dry run is ready, the apply refuses, and the journal is replaced |
| RecoveryJournal.DryRunMissesTornTemporaries | deploy/bootstrap/ssh-dev/recover-exfat-reconciliation-refusal.py:426-441 | on a cut-off helper file an apply refuses, and a dry run reports ready exactly if that file is a temporary |
| RecoveryJournal.TornTemporaryHappens | deploy/bootstrap/ssh-dev/recover-exfat-reconciliation-refusal.py:369-372 | with a cut-off temporary of the journal the dry run is ready and the apply refuses |
| RecoveryJournal.RecoveryFiles.Exclusive | deploy/bootstrap/ssh-dev/recover-exfat-reconciliation-refusal.py:356-366 | fails, changing nothing, if the file exists or its directory does not; otherwise writes it by open, write, fsync and directory fsync, in this order |
| RecoveryJournal.RecoveryFiles.Atomic | deploy/bootstrap/ssh-dev/recover-exfat-reconciliation-refusal.py:369-376 | reuses a temporary with the right bytes, refuses another one, creates a missing one; the target gets the value and the temporary disappears |
| RecoveryJournal.RecoveryFiles.Recover | deploy/bootstrap/ssh-dev/recover-exfat-reconciliation-refusal.py:388-461 | outcome, final files and every system call made are those of the protocol's script; a dry run or an unverified one changes nothing |
| Sessions.EventAgrees | src/dashcam_web/security.py:160-251 | one call answers as the eager store does, leaves the same live sessions in the same order, and keeps the invariant |
| Sessions.LazyExpiryIsUnobservable | src/dashcam_web/security.py:160-251 | for every run on a clock that does not go back, the store gives the answers of a store that drops each session the instant it expires, and holds the same live sessions |
| Sessions.EveryRun | src/dashcam_web/security.py:138-251 | from the empty store: those answers, and at most the bound many sessions with distinct tokens, in order of last use, with created ≤ reauthenticated ≤ last seen |
| Sessions.EvictionIsLeastRecentlyUsed | src/dashcam_web/security.py:178-189 | creation drops a live session only if as many are live as the bound allows, exactly one, and none of the others was used before it |
| Sessions.DroppingTheExpired | src/dashcam_web/security.py:167-176 | collecting the expired keys and deleting them one by one leaves the filtered dictionary, and their number is the number dropped |
| Sessions.SessionStore.Prune | src/dashcam_web/security.py:167-176 | removes exactly the expired sessions, keeps the order of the others, and returns how many were removed; an invalid time changes nothing |
| Sessions.SessionStore.UniqueToken | src/dashcam_web/security.py:191-201 | returns the first drawn string that is well formed, not a key and not excluded, or none |
| Sessions.SessionStore.Create | src/dashcam_web/security.py:178-189 | prunes, evicts the oldest entry at the bound, and adds the new session last; if no token can be drawn the eviction has happened all the same |
| Sessions.SessionStore.Authenticate | src/dashcam_web/security.py:203-222 | a live session is touched and moved to the end, an unknown or expired one is removed and denied |
| Sessions.SessionStore.Reauthenticate | src/dashcam_web/security.py:232-242 | authenticates, and then stores the new reauthentication time in place |
| Sessions.SessionStore.Revoke | src/dashcam_web/security.py:250-251 | removes the token's session and no other |
| Lru.ForgottenExactlyWhenCrowdedOut | src/dashcam_web/security.py:283-290 | in any history, a used key is still listed exactly if fewer than the bound many other keys were used since |
| RateLimiter.KeyIsLostExactlyWhenCrowdedOut | src/dashcam_web/security.py:283-290 | over any run, a checked key has lost its history exactly if at least `max_keys` distinct other keys were checked since, and the dictionary keeps its bound |
| RateLimiter.DequesMatchHistory | src/dashcam_web/security.py:279-298 | every resident key's deque is sorted, not in the future, and counts like the full history in every window that can still be asked about; keys without a deque have no history that counts |
| RateLimiter.AcceptsExactlyBelowTheLimit | src/dashcam_web/security.py:291-298 | a check is accepted exactly if fewer than `limit` accepted checks of the key since it was last crowded out lie in (now − window, now] |
| RateLimiter.WindowsHoldAtMostTheLimit | src/dashcam_web/security.py:279-298 | of the acceptances of a key since it was last crowded out, no half-open window of the configured length holds more than `limit` |
| RateLimiter.CheckedDeque | src/dashcam_web/security.py:287-298 | the deque's maximum length never drops an event: an accepted check only appends |
| RateLimiter.UncrowdedHoldsAll | src/dashcam_web/security.py:283-290 | a key that is never crowded out is judged by all of its accepted checks |
| RateLimiter.AcceptedStillCount | src/dashcam_web/security.py:283-290 | up to the end of a window in which fewer other keys are checked than there are places, every acceptance in the window still counts |
| RateLimiter.WindowsWithFewOthersAreBounded | src/dashcam_web/security.py:279-298 | such a window holds at most `limit` acceptances of the key, all of them counted, whatever was checked before or after it |
| RateLimiter.CrowdingBreaksTheBound | src/dashcam_web/security.py:283-290 | for every configuration, key and time there is a run in which exactly as many other keys as places are checked in a window and `limit + 1` checks of the key are accepted in it |
| RateLimiter.BoundedExactlyBelowThePlaces | src/dashcam_web/security.py:279-298 | for every configuration and key: windows with at most n other keys hold at most `limit` acceptances of the key, in every run, exactly if n is smaller than the number of places |
| RateLimiter.RegressionIsAccepted | src/dashcam_web/security.py:294-298 | a check at a time before the key's last event clears the deque and is accepted |
| RateLimiter.FixedWindowRateLimiter.CheckKey | src/dashcam_web/security.py:279-298 | the loop over the deque computes the specified verdict and dictionary; an invalid key or time changes nothing |
| WebPolicy.RunGood | src/dashcam_web/application.py:155-281 | over any run of requests the session store keeps its bound, distinct tokens, order of last use and ordered times |
| WebPolicy.StoredIsEarned | src/dashcam_web/application.py:239-281 | every stored session was made by an earlier login with the right password, was not logged out since, had the password shown at its reauthentication time, and was last used by a request that bore its token |
| WebPolicy.DispatchedIsJustified | src/dashcam_web/application.py:155-204 | a request reaches the recorder only with the token of such a login less than the absolute timeout ago, used less than the idle timeout ago, and, where its endpoint asks, with the session's CSRF token and the password shown within the reauthentication window |
| WebPolicy.DispatchedExactlyWhen | src/dashcam_web/application.py:155-204 | a request is dispatched exactly if it is bounded, below the request limit, names an endpoint and a live session, and meets the endpoint's demands |
| WebPolicy.CrashesExactlyWhen | src/dashcam_web/application.py:155-281 | on a parsed request and up to its dispatch, an exception escapes exactly if tokens cannot be drawn at a login, a compared CSRF header is not ASCII, or the session ends between the two clock readings of a reauthentication |
| WebPolicy.LoginCrashHappens | src/dashcam_web/application.py:252 | a login for which the token factory draws nothing acceptable |
| WebPolicy.CsrfCrashHappens | src/dashcam_web/application.py:258-264 | after a login, a logout whose CSRF header is not ASCII |
| WebPolicy.TimeoutCrashHappens | src/dashcam_web/application.py:280 | after a login, a reauthentication during which the absolute timeout passes |
| WebPolicy.LoginsFollowChecks | src/dashcam_web/application.py:239-243 | the login limiter's state is that of the limiter run on the login requests' keys alone |
| WebPolicy.TriesAreBounded | src/dashcam_web/application.py:239-252 | in a window in which fewer other clients try to log in than the limiter has places, no client has more than `limit` passwords looked at, whatever happened before or after it |
| WebPolicy.LongNamesCannotLogIn | src/dashcam_web/application.py:239-243 | an admitted client unknown to the login limiter is refused by it exactly if its name has more than 122 characters |
| WebPolicy.LongNameHappens | src/dashcam_web/application.py:239-243 | every ASCII name of 123 characters is admitted and then told that it tried too often |
| WebPolicy.WebApplication.HandleRequest | src/dashcam_web/application.py:155-204 | checks run in the source's order and leave the state and outcome of the specification |
| WebPolicy.WebApplication.LogIn | src/dashcam_web/application.py:239-256 | counts the attempt before the body is looked at, and creates a session only for the right password |
| WebPolicy.WebApplication.WithSession | src/dashcam_web/application.py:178-199 | authenticates before the path is looked at, then logs out, reauthenticates, dispatches or reports an unknown endpoint |
| WebPolicy.WebApplication.LogOut | src/dashcam_web/application.py:258-264 | removes the session only if the CSRF token matches |
| WebPolicy.WebApplication.ShowPassword | src/dashcam_web/application.py:266-281 | compares the CSRF token before the body, and renews the session only for the right password |
| Clips.LedgerHolds | src/dashcam/state.py:145-204 | over any run, successive leases are disjoint, the stored lease is the last one granted and at most 15 minutes long, and every other one has ended |
| Clips.LeasesNeverOverlap | src/dashcam/state.py:254-286 | at no time do two of the leases ever granted to a clip overlap, from issue to the earlier of expiry and release |
| Clips.EligibleWithinTheBound | src/dashcam/state.py:288-293 | a finalized unprotected clip that no new lease or transition touches is eligible for retention 15 minutes after the last event at the latest |
| Clips.EligibilityStays | src/dashcam/state.py:288-293 | eligibility stays until the record is changed |
| Clips.RunsPassTheirWaypoints | src/dashcam/state.py:101-141 | wherever a run stands, it has passed that state's waypoints in order |
| Clips.DeletedClipsWereFinalized | src/dashcam/state.py:101-141 | a run that reaches deletion passed writing, finalizing, finalized and deleting in this order |
| Clips.RecordingStatesAreLeftForGood | src/dashcam/state.py:101-141 | no run returns to creating, writing or finalizing once it has left it |
| Clips.LeasesOnlyWhenMeaningful | src/dashcam/state.py:220-286 | no lease record exists while a clip is created, written or finalized, or once it is deleted, and a stored lease is within its bounds |
| Thresholds.ModeIsHistory | src/dashcam/storage/retention.py:89-111 | from a normal start the mode is not normal exactly if some accepted report was below the low threshold or without space and every later one stayed below the high one; emergency depends on the last report |
| Thresholds.EverySwitchIsPaid | src/dashcam/catalog/policy.py:40-52 | the invariant behind the bound, over every run: what is owed for the switches so far, and the movement towards the next one, is covered by the variation of the free bytes |
| Thresholds.SwitchesArePaidFor | src/dashcam/catalog/policy.py:14-16 | over every run, n switches satisfy (n − 1 − 2 · early) · (stop − start) ≤ total variation of the free bytes, where early counts the no-space reports that find the mode normal and free space not low |
| Thresholds.OrdinarySwitchesArePaidFor | src/dashcam/catalog/policy.py:14-16 | without no-space reports, n switches satisfy (n − 1) · (stop − start) ≤ total variation |
| Thresholds.EarlyReportsFlapForFree | src/dashcam/catalog/policy.py:40-52 | with early reports that last bound fails: three reports of the same free bytes switch three times |
| Thresholds.StorageThresholdController.Evaluate | src/dashcam/catalog/policy.py:40-52 | the mode after a report is that of the specification; a negative size is an error that changes nothing |
| NetworkMode.KeyfilesRoundTrip | src/dashcam/network_fallback.py:460-481 | the source's profile format prints for every valid input, and reading it back gives the interface |
| NetworkMode.DecisionsAreSticky | src/dashcam/network_fallback.py:276-334 | over a sequence of requests, if the decision after one differs from the decision after an earlier one, the log holds a successful "connection down" between them |
| NetworkMode.NetworkFallbackController.Answer | src/dashcam/network_fallback.py:276-334 | one request, of either kind, gives a decision up only if a "connection down" succeeded while it was answered |
| NetworkMode.NetworkFallbackController.Serve | src/dashcam/network_fallback.py:276-334 | for any sequence of the two requests, in any order: whenever two decisions differ, a connection was taken down, by a successful command in the log, between them |
| NetworkMode.NetworkFallbackController.RunBefore | src/dashcam/network_fallback.py:336-344 | no command starts at or after its deadline, and one that starts ends by the deadline and its own timeout (plus slack) |
| NetworkMode.NetworkFallbackController.FindOneWifiInterface | src/dashcam/network_fallback.py:346-362 | one bounded question; the interface is the only safe name of a Wi-Fi device listed, and a failed command is told apart from an ambiguous list |
| NetworkMode.NetworkFallbackController.ThenConfirm | src/dashcam/network_fallback.py:364-412 | questions are asked in order up to the first negative answer or the deadline, and the verdict is positive exactly if all were answered positively |
| NetworkMode.NetworkFallbackController.ClientIsUsable | src/dashcam/network_fallback.py:364-412 | a client is usable exactly if state, connection, mode and routes are answered positively, in this order, all asked before the deadline |
| NetworkMode.NetworkFallbackController.LoadCredentials | src/dashcam/network_fallback.py:414-458 | refuses exactly if the stored file is unsafe or invalid or a write fails; what it returns is valid and is what the private file then holds |
| NetworkMode.NetworkFallbackController.Publish | src/dashcam/network_fallback.py:517-530 | reported published exactly if the path was safe and the write succeeded; the boot volume holds these credentials then, and is otherwise unchanged unless the failed write replaced it |
| NetworkMode.NetworkFallbackController.BringUp | src/dashcam/network_fallback.py:483-515 | succeeds exactly if load, up, binding and address checks all do, in this order and before the deadline |
| NetworkMode.NetworkFallbackController.ActivateAp | src/dashcam/network_fallback.py:483-572 | an access-point result is preceded, in this order, by stored credentials, a matching profile, load, up, exact binding and exact address, with boot credentials only after those, and is refused only if one of them fails; no other result publishes anything; it ends within 30 s |
| NetworkMode.NetworkFallbackController.PollClient | src/dashcam/network_fallback.py:293-306 | the loop ends by the deadline after at most ceil(window / poll) checks, starts no command after it, reports a usable client exactly if a check found one, and gives up only at the deadline |
| NetworkMode.NetworkFallbackController.SelectForBoot | src/dashcam/network_fallback.py:276-308 | a decision is repeated without asking anything; a fresh one ends within window + 30 s, has the reason its first reply and its client checks call for, tries the access point only after the whole window, and rests on its evidence |
| NetworkMode.NetworkFallbackController.PersistedIdentity | src/dashcam/network_fallback.py:460-481 | an identity is returned only if the stored profile is the one its credentials print; with a working file store a later process recovers exactly the credentials and interface that were activated |
| NetworkMode.NetworkFallbackController.RetryClient | src/dashcam/network_fallback.py:310-334 | asks exactly the connection an earlier process activated to go down; the decision is made anew exactly if that succeeded, and otherwise nothing changes; a decision made anew, of either mode, has all the evidence of one made for boot, counted from when it began; ends within window + 35 s, so within 95 s |
| ApProfile.NeverRefuses | src/dashcam/network_fallback.py:240-245 | for all valid credentials and safe interface names the profile is printed, and is the template with the interface filled in |
| ApProfile.TemplateValidates | src/dashcam/network_fallback.py:174-237 | the rendered template passes the template's validation for all valid credentials |
| ApProfile.FilledProfileValidates | src/dashcam/network_fallback.py:201-245 | filling the placeholder gives exactly the expected text, and it passes the validation |
| ApProfile.ProfilesAreDistinct | src/dashcam/network_fallback.py:174-198 | a printed profile determines the credentials and the interface |
| ApProfile.ReadsBackExactly | src/dashcam/network_fallback.py:460-481 | a later process gets the interface back from the written profile with the same credentials, and with no others |
| ApProfile.LoadingIsStable | src/dashcam/network_fallback.py:414-458 | what is loaded is valid, is read again unchanged by a later process, and migrating the first schema keeps name and secret |
| Installer.OneEffect | deploy/ssh-dev-app/install.py:1435-1538 | after one effect a repeated install has exactly the remaining ones to do |
| Installer.FinishedInstall | deploy/ssh-dev-app/install.py:1784-1828 | an install from any stop point of itself that is let through ends with every managed file new, the link on the complete release, and both journalled |
| Installer.StopsAreSafe | deploy/ssh-dev-app/install.py:1784-1828 | on the level of effects: however often installs stop, `current` names a release with its marker, every managed file has the old or the new digest, and `current` changes only when all are new |
| Installer.RepeatableExactlyAtNoneOrAll | deploy/ssh-dev-app/install.py:995-1067 | from a settled target, a stopped install is accepted again exactly if none or all of the differing managed files were replaced, and then it finishes in an authorized state |
| Installer.MixedFilesBlockEveryBundle | deploy/ssh-dev-app/install.py:995-1067 | from the first replaced file until the journal is written, a bundle is accepted exactly if it asks for the very files found and its release, if installed, has its manifest |
| Installer.UnjournalledHappens | deploy/ssh-dev-app/install.py:1784-1828 | an upgrade stopped just before the journal is written can be repeated, but the release it came from is not accepted any more |
| Installer.StoppedHalfwayHappens | deploy/ssh-dev-app/install.py:1785-1794 | an upgrade that differs in two files and stops after the first leaves a target it does not accept |
| InstallFiles.Simulates | deploy/ssh-dev-app/install.py:1402-1538 | every file operation of a run either changes nothing that is in place or does exactly one effect, because what a rename publishes was written in full before it |
| InstallFiles.ScriptIsProper | deploy/ssh-dev-app/install.py:1435-1489 | along every permitted run the staging tree is finished, with its marker, when it is renamed, and every temporary holds its whole payload |
| InstallFiles.StopsAreStopped | deploy/ssh-dev-app/install.py:1280-1314 | wherever a run stops, during a write and during its cleanup included, what is in place is a stop point of the effects |
| InstallFiles.NothingPartialInPlace | deploy/ssh-dev-app/install.py:1402-1538 | however often installs stop and wherever: every managed file holds its old or its new bytes, every release in place is whole, and `current` names one of them |
| InstallFiles.PermittedAgainExactlyAtNoneOrAll | deploy/ssh-dev-app/install.py:1027-1067 | on the files themselves, from a settled target, a stopped install is permitted again exactly if none or all of the differing managed files were replaced |
| InstallFiles.UndisturbedRunFinishes | deploy/ssh-dev-app/install.py:1784-1828 | a permitted run that nothing stops and no leftover of its process number blocks ends with every file, the link, the release and the journal |
| InstallPower.StepLoss | deploy/ssh-dev-app/install.py:1249-1314 | a power loss at any call of a step leaves what one before or after the step leaves: a file is synced before its rename and its directory after it |
| InstallPower.PowerLossIs | deploy/ssh-dev-app/install.py:1402-1538 | the disk after a power loss at any call of a run, as an if-and-only-if: files and journal of a stop point, the old link or that of the stop point, and of a new release nothing, or its marker and anything else |
| InstallPower.PowerCutsKeepTheFiles | deploy/ssh-dev-app/install.py:1280-1314 | over any number of power losses: every managed file is the old one or the new one, link and journal say something new only when all files are new, and a release that was not there before has its marker |
| InstallPower.JournalCanOutliveItsRelease | deploy/ssh-dev-app/install.py:1435-1514 | after a run that finished, journal and link can name a release that is missing or has its marker and an unusable environment, exactly if the run had to build the release |
| InstallPower.DanglingLinkBlocksEveryPackage | deploy/ssh-dev-app/install.py:957-981 | while the link names a release that is not there, no package is permitted |
| InstallPower.FirstInstallCanBlockAllOthers | deploy/ssh-dev-app/install.py:1784-1828 | on an empty target, the install of any package can be cut off, after its journal was written, in a state that permits no package at all |
| InstallPower.PermittedAfterCutExactlyWhen | deploy/ssh-dev-app/install.py:1027-1067 | after a power loss an install from a settled target is permitted again exactly if none or all of the differing files were replaced, what is left of its release is usable, and the link does not name a missing release |
| InstallFiles.InstallTarget.InstallRelease | deploy/ssh-dev-app/install.py:1402-1489 | builds the staging tree, writes its marker last and renames it; an error removes the tree and leaves a stop point |
| InstallFiles.InstallTarget.WriteAtomically | deploy/ssh-dev-app/install.py:1249-1314 | writes a temporary and renames it; an error removes the temporary and leaves a stop point |
| InstallFiles.InstallTarget.InstallManagedFile | deploy/ssh-dev-app/install.py:1517-1538 | refuses a file that drifted from its digest before the run, leaves one that is up to date, and replaces any other |
| InstallFiles.InstallTarget.InstallManagedFiles | deploy/ssh-dev-app/install.py:1785-1794 | replaces exactly the differing files, in order |
| InstallFiles.InstallTarget.Install | deploy/ssh-dev-app/install.py:1678-1828 | whichever commands and checks fail, it leaves a stop point; it succeeds only with all its effects done, and does so if it is permitted, nothing fails and no leftover is in its way |
| ArmCmdline.TokensAppendBlank | deploy/bootstrap/ssh-dev/arm-cmdline.py:86-119 | appending a blank and a word appends exactly that token |
| ArmCmdline.ProposedIs | deploy/bootstrap/ssh-dev/arm-cmdline.py:116-119 | the proposed bytes are the old body, a blank, the trigger, and the old final newline if there was one |
| ArmCmdline.ArmingRoundTrip | deploy/bootstrap/ssh-dev/arm-cmdline.py:86-119 | for every readable unarmed command line: the tokens gain the trigger at the end, earlier bytes and the newline stay, the result verifies and cannot be armed again, and it can be read exactly if it fits the bound |
| ArmFiles.BeforeOrAfter | deploy/bootstrap/ssh-dev/arm-cmdline.py:153-296 | however often applies stop, the file is exactly as before or exactly as proposed, and as proposed only while an exact backup exists |
| ArmFiles.SucceedsExactlyWhen | deploy/bootstrap/ssh-dev/arm-cmdline.py:246-296 | an apply succeeds exactly if the file is the expected one, unarmed, fits when armed, and no other backup or temporary is in its way |
| ArmFiles.OversizeIsArmedAndRefused | deploy/bootstrap/ssh-dev/arm-cmdline.py:246-296 | with no other backup and no temporary in its way the file is replaced in any case, and the apply is refused exactly if the result exceeds the bound |
| ArmFiles.OversizeHappens | deploy/bootstrap/ssh-dev/arm-cmdline.py:276-288 | for any digest: a readable, unarmed line of 16 KiB is armed, refused, and can no longer be read |
| ArmFiles.ShownIsStopped | deploy/bootstrap/ssh-dev/arm-cmdline.py:153-237 | with a durable backup directory, whatever is visible at any moment of an apply or found after a power loss at any of its system calls is a stop point of the process |
| ArmFiles.PowerCutsKeepTheBackup | deploy/bootstrap/ssh-dev/arm-cmdline.py:153-296 | with a durable backup directory, over any number of applies cut by power losses, the command line on the disk is as before, or as proposed with its exact backup |
| ArmFiles.FreshDirectoryCanBeLost | deploy/bootstrap/ssh-dev/arm-cmdline.py:153-232 | an apply that had to make the directory can be cut off armed and without a backup, wherever the directory lies |
| ArmFiles.BackupSurvivesExactlyWhen | deploy/bootstrap/ssh-dev/arm-cmdline.py:153-237 | an armed command line keeps its exact backup through every power loss exactly if the directory was durable before or the apply does not get to the replacement |
| ArmFiles.ArmingIsApply | deploy/bootstrap/ssh-dev/arm-cmdline.py:246-296 | the answer and the system calls of an apply that nobody disturbs are those that the theorems above are about |
| ArmFiles.ArmedIsVerified | deploy/bootstrap/ssh-dev/arm-cmdline.py:246-296 | after an apply that succeeded, verify succeeds, and a dry run and another apply are refused and change nothing |
| ArmFiles.DriftIsRefused | deploy/bootstrap/ssh-dev/arm-cmdline.py:276-279 | if another process writes the command line while the backup is made, the run is refused and leaves what it wrote, with the backup of what was read |
| ArmFiles.CmdlineFiles.DurableBackup | deploy/bootstrap/ssh-dev/arm-cmdline.py:153-195 | makes the directory, keeps an exact backup, refuses another one, and makes a new one by open, write, fsync and directory fsync |
| ArmFiles.CmdlineFiles.AtomicReplace | deploy/bootstrap/ssh-dev/arm-cmdline.py:210-237 | refuses if the temporary exists; otherwise the file gets the value by one rename after the temporary was synced |
| ArmFiles.CmdlineFiles.Run | deploy/bootstrap/ssh-dev/arm-cmdline.py:246-296 | verify, dry run and apply, with the re-reading before the replacement: answer, final files and every system call are those of the specification |
| Filler.IncrementIs | deploy/ssh-dev-validation/milestone10-retention-loop/run.py:1592-1625 | on whole units an increment is refused exactly if the band leaves no room or the byte budget is spent; otherwise it is the least of distance, budget and chunk, and aligned |
| Filler.TargetIsLargestAligned | deploy/ssh-dev-validation/milestone10-retention-loop/run.py:1592-1625 | the target is the largest aligned value below the threshold |
| Filler.StaysOnTrack | deploy/ssh-dev-validation/milestone10-retention-loop/run.py:2398-2430 | with exact drops, k allocations have taken k whole chunks until the last one hits the target |
| Filler.FillIsSafe | deploy/ssh-dev-validation/milestone10-retention-loop/run.py:2398-2430 | whatever drops are observed, a fill that is not refused ends below the threshold and above the guard, within its byte and step budgets |
| Filler.ExactFillHitsTheTarget | deploy/ssh-dev-validation/milestone10-retention-loop/run.py:2398-2430 | if drops are exact, a fill on whole units is refused exactly if the band or a budget is too small, and otherwise ends at the target in ceil((free − target) / 16 MiB) steps |
| Filler.Fill | deploy/ssh-dev-validation/milestone10-retention-loop/run.py:2398-2430 | the loop ends, and where it ends, for whatever drops are observed, is what the specification says |
| Filler.ThreeFillsNeedFewSteps | deploy/ssh-dev-validation/milestone10-retention-loop/run.py:2396-2430 | the three cycles, from any aligned free space, into one growing file: if drops are exact and the bytes suffice, all three hit the target, the first in at most 16 steps and all in at most 18 of the 64 |
| IdrScan.OverlappingOccurrences | deploy/ssh-dev-validation/milestone7-force-key/run.py:319-325 | why skipping behind a marker misses nothing: only a marker that overlaps itself could occur again before it ends |
| IdrScan.FourByteMarkersAddNothing | deploy/ssh-dev-validation/milestone7-force-key/run.py:319-325 | the second marker pass finds nothing the first one did not |
| IdrScan.NothingBehind | deploy/ssh-dev-validation/milestone7-force-key/run.py:326-335 | a walk that stands before malformed data or the end has no IDR unit it could still reach |
| IdrScan.Find | deploy/ssh-dev-validation/milestone7-force-key/run.py:321 | the first occurrence at or after the start, or none |
| IdrScan.ScanFor | deploy/ssh-dev-validation/milestone7-audio/run.py:411-417 | true exactly if some occurrence of the marker is followed by a byte whose low five bits are 5 |
| IdrScan.WalkUnits | deploy/ssh-dev-validation/milestone7-audio/run.py:418-427 | true exactly if units with 4-byte lengths lead from the start of the payload to an IDR unit |
| IdrScan.ContainsIdr | deploy/ssh-dev-validation/milestone7-force-key/run.py:316-335 | true exactly if a start code (ITU-T H.264, section B.1) precedes an IDR unit (section 7.4.1, Table 7-1), or the length-prefixed walk (ISO/IEC 14496-15:2004, section 5.2.3) reaches one before malformed data |

`recover-fssize-refusal.py` and `recover-exfat-reconciliation-refusal.py` are two instances of one protocol; a row cites
one of them, and the other has the same steps in `recover`, `_exclusive`, `_atomic` and `_sync`.  The two IDR scanners
are likewise the same bytes-level loops.

## Left out

- RecoveryJournal.PowerLossSafety: does not cover a kill before an fsync followed by a later power loss, which the code does not promise either
- RecoveryJournal.RecoveryFiles.Recover: the live-system verification is a yes-or-no parameter, I/O errors other than existing or missing files are not modelled, and an audit directory that does not exist holds no files
- Sessions.SessionStore.Create: the token factory's strings are a parameter, so nothing is said about how likely a failure is
- NetworkMode.NetworkFallbackController.ClientIsUsable: the text of command outputs is not parsed; a reply says whether it passes the source's check
- WebPolicy.WebApplication.HandleRequest: parsing of headers, bodies and paths is replaced by its results, the endpoint table by the two demands of an endpoint, and what happens after dispatch is not part of this model; one limiter object given for both limits is excluded
- InstallFiles.InstallTarget.Install: package plans, unit enabling, permissions and group membership are yes-or-no answers before the first change or failures at a step; that a link of a foreign form is refused is part of the pre-checks
- InstallPower.PowerLossIs: staging trees, temporaries and unnamed links are found in any state after a power loss; a stop of the process followed by a later power loss is covered only as a power loss of that run
- InstallFiles.NothingPartialInPlace: is about stops of the process, power losses are in `InstallPower`; a wheel's files, the environment's and the application's each count as one content that may be cut off anywhere
- ArmFiles.CmdlineFiles.Run: ownership, modes and inode numbers are left out, so a file rewritten with the same bytes counts as unchanged
- Filler.Fill: allocation itself, block counts, capacity drift and the reclaim half of each cycle are left out
- IdrScan.ContainsIdr: the hexadecimal text that the audio harness turns into bytes is not parsed
- Thresholds.StorageThresholdController.Evaluate: the constructors' refusals of unordered thresholds are a validity predicate
- Float rounding: times and durations are reals
- Hashing, scrypt, UUIDs, JSON and TOML texts: uninterpreted functions or values
- `PadCounter.observe`: counts buffers, backward steps and large gaps of timestamps; left out because nothing modelled here depends on it
- `_redact_secrets`: replaces secret-named entries of a JSON tree by whether they are set; left out because what it guards against lies behind the dispatch
- `_merge_update`: overlays a nested mapping on another, table by table; left out because its result only matters to the validators
- the configuration validators: range checks of single fields; left out because no field is used by a protocol modelled here
- `update_config_atomic`: writes a temporary and renames it, as `_atomic_replace` of the command line does, which is modelled
- Catalog, reclaimer, intents, recorder runtime, GStreamer pipelines, provisioning, subprocess execution, sockets and signals: outside these cores
