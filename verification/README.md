# Verification of the feedback daemon

This project models the core of meegofeedbackd, the daemon that plays audio and vibra feedbacks, and
proves properties of the model with Dafny. `dafny verify dfyconfig.toml` checks everything.

Three parts are modelled, and a state machine joins them.

- **Shared handles.** A feedback holds one weak pointer for each backend. The handles behind the pointers
  are reference counted and shared through the manager's cache, whose keys are the directory without the
  theme prefix and the backend's position in base 16.
- **The resolver.** For a theme and an application it computes, for every feedback, the list of candidate
  directories: along the theme inheritance chain, then along the fallback on names with a dash.
- **Events.** Backends lose and regain their connections with a back-off; lost and established notices and
  theme changes go through one queue; sessions reload. Client connections own the sessions.

## How the project is laid out

| files | what they hold |
|---|---|
| `Text.dfy` | the string operations of the source: sections, removal of substrings, numbers |
| `Theming.dfy`, `MfUtil.dfy`, `Resolver.dfy`, `CandidateLists.dfy` | the candidate lists without loops; the loops of mfutil, proved to compute them; what sessions rely on; which entries a list has, in which order |
| `Handles.dfy`, `HandleInvariants.dfy`, `Teardown.dfy`, `Sessions.dfy` | the operations on handles as functions, and what they keep, up to all feedbacks of a session beside all other sessions |
| `MfManager.dfy`, `MfFeedback.dfy`, `MfSession.dfy` | the same operations as objects that update their fields in place, proved equal to the functions |
| `Reconnection.dfy` | a backend's reconnection, as an object and as a machine with runs |
| `Daemon.dfy`, `Agreement.dfy`, `Runs.dfy`, `Isolation.dfy` | the whole daemon as a state machine, its invariant, and the results over every run |
| `CacheKeys.dfy`, `Clashes.dfy` | what a cache key tells; agreement holds in all runs exactly if the keys of an installation are apart |
| `OddRuns.dfy` | runs in which agreement, isolation or exclusive attempts fail |
| `MfConnection.dfy` | client connections and session lifetimes, with nested event loops |
| `Volumes.dfy` | the volume table: a full read of the configuration against following its changes |

A handle lives in the manager's map from identities to handles. Identities are never used again, deleting
a handle takes it out of the map, and a weak pointer to an identity that is not in the map reads as null.

## Main results

- Once the event queue is empty, every slot of every set-up session shows, on every backend whose
  connection has been announced, the first candidate under the current theme that the backend accepts
  (`Runs.EventualAgreement`), if the cache keys of the installation are apart: no directory that is
  searched for a list has the key of a directory wanted by another list, unless its own scan gives that one.
  This condition on installation, applications and themes is exact (`Clashes.AgreementExactlyWhen`).
  Nothing is assumed about losses. Every Connected backend with neither an attempt in flight nor the timer
  running has been announced (`Isolation.IdleBackendsAgree`). Delivering what is pending always gets there,
  in a number of deliveries known beforehand (`Runs.DeliveriesSettle`, `Runs.AgreementIsReached`).
- In every reachable state the cache, the live handles, the counts and the slots agree
  (`Runs.CacheAndCountsAgree`), and the calls to the backends are consistent: nothing is unloaded twice,
  and what is outstanding is the data of the live Ready handles (`Runs.BackendsBalance`).
- At every point of a run a live handle belongs to a backend that is Connected or whose loss is still to be
  processed, exactly if no attempt of the run ends a connection silently
  (`Isolation.HandlesOfLiveConnections`, and `Isolation.IsolatedExactlyWhen` for each step).
- The resolver's loops compute the closed form of the candidate lists (`MfUtil.GetFeedbackDirLists`), and its
  entries are the versions along the inheritance chain (`CandidateLists.ListHoldsChain`), followed by those of
  the fallback (`CandidateLists.FallbackFollows`).
- The backends of the daemon follow the reconnection machine and are never stranded
  (`Isolation.NoStrandedBackend`); their delays never decrease (`Isolation.DaemonBacksOff`).

Some properties hold only under a condition. The exact condition is proved, with an input or a run that
shows the failure:

| property | holds exactly | failure |
|---|---|---|
| isolation | without a failed attempt of a backend that is in use (`Isolation.HandlesOfLiveConnections`) | `OddRuns.OverlappingAttemptBreaksIsolation` |
| attempts are exclusive | when losses come at good times (`Reconnection.NeverStranded`) | `OddRuns.OverlappingAttemptBreaksIsolation`, at its fourth state |
| every failure starts its delay | when tryConnect never finds its timer running (`Reconnection.DelayForEveryFailure`) | `Reconnection.SpuriousLossSkipsAnInterval` |
| the plain reading of the candidate lists | when no theme is misread (`Resolver.PlainExactlyWhen`) | `Resolver.AlwaysPlainExactlyWhen` |
| agreement, as far as the cache is concerned | when the cache keys are apart (`Clashes.AgreementExactlyWhen`) | `OddRuns.SharedKeysDisagree` |
| candidate directories contain the theme prefix once | when no application name brings it in (`Resolver.ResolvedDirsAreClean`) | `Resolver.AppsCanCollide` |
| following the volumes | for keys that are not misnumbered (`Volumes.FollowsExactlyWhen`) | `Volumes.MisnumberedKeys` |
| session lifetimes | without late data (`MfConnection.LifetimesOverRuns`) | `MfConnection.LateDataCanBlockAllSessions` |

Agreement is about announced connections because a backend sets its own state in init(), before the
result of the attempt is known: `OddRuns.MarkedBackendDisagrees` shows the gap while the attempt is in
flight, `OddRuns.OvertakenBackendDisagrees` while the timer is running after the attempt has been
overtaken. `OddRuns.SmallConfigAccepts` gives an installation in which these runs exist.

## Assumptions

- Queued slots run to completion on the main thread, with no nested event loop inside a load. What other
  threads write to a backend's state falls between the slots.
- What a backend makes of a directory (nothing, silence on purpose, data) does not change.
- A backend starts Disconnected with its first attempt in flight. While an attempt is in flight, or an
  earlier one may still be running, the backend may set itself to Connected at any time, as
  doc/src/tutorial.dox:51 demands of init(); a backend that is Connected from its constructor on
  (meegofeedback-dummy-audio/mfbackenddummyaudio.cpp:30) is one that does so at once.
- Losses may be reported at any time, in any state and in any thread.
- Theme inheritance has no cycle: the source follows it without a check (src/lib/mfutil.cpp:372).
- A directory listing has no duplicates, and names of themes contain no '/'.
- Applications may have any name. The cache keys are apart for all names that do not bring in the theme
  prefix once more (`Clashes.FittingAppsAreApart`), such as all names without '/' (`Resolver.PlainNamesFit`).
- That agreement fails in some run when the keys are not apart is proved for absolute theme prefixes without a
  section "meegotouch" (`CacheKeys.PrefixApart`).
- Only `MfConnection.dfy` is about nested event loops, which run inside session setups. A deletion that
  is scheduled in the main loop is carried out there; one that is scheduled in a nested loop is carried out
  in that loop or at any time later.
- The default theme exists; where it may not, the resolver's methods return None, which stands for the
  end of the process.

## Where the code and its documentation differ

- The comment at src/lib/mfbackendbase.h:262-264 says that the first interval is the wait before the first
  attempt. The counter is incremented first, so the entry of 500 ms is never used; the model follows the code.
- src/lib/mfutil.h:42-48 describes the fallback as the part of the name before the first dash. The code
  takes the first part that is not empty, so "-press" falls back on "press"; the model follows the code.

## Model

| member | source | states |
|---|---|---|
| `Theming.ChainCharacterized` | src/lib/mfutil.cpp:321-385 | the inheritance chain found for a theme is the only sequence from the default theme to it in which each theme is the declared parent of the next, and it is empty exactly when there is none |
| `Theming.ChainHasNoRepeats` | src/lib/mfutil.cpp:321-385 | no theme occurs twice in a chain |
| `MfUtil.GetFeedbackDirsFromPath` | src/lib/mfutil.cpp:295-319 | erasing bad names while iterating leaves the usable entries, in order, completed with the path |
| `MfUtil.GetFeedbackDirsOfATheme` | src/lib/mfutil.cpp:221-293 | common directories followed by the application's; in the default theme the application's version stands where the common one stood, and only its new names are appended |
| `MfUtil.OverrideInDefaultTheme` | src/lib/mfutil.cpp:264-286 | the nested search and replace loops give the list in which every overridden name is replaced in place |
| `MfUtil.GetFeedbackNames` | src/lib/mfutil.cpp:68-91 | the common names at their positions followed by the application's other names; None without the default theme |
| `MfUtil.CompareBaseLists` | src/lib/mfutil.cpp:126-147 | each list starts with the final directory, followed by the default one where the two lists differ at that position; both lists end up reduced to names |
| `MfUtil.BaseLists` | src/lib/mfutil.cpp:108-147 | the lists of the default theme alone are its closed form: the application's directory, then the common one |
| `MfUtil.PrependTheme` | src/lib/mfutil.cpp:159-173 | the loops over one theme prepend to each list exactly the directories picked for its name, in reverse order |
| `MfUtil.PickedTheme` | src/lib/mfutil.cpp:149-174 | what is picked for one inherited theme is its application directory, then its common directory if the name is common in the default theme |
| `MfUtil.FindFeedbackFallbackPaths` | src/lib/mfutil.cpp:199-219 | the in-place loop gives every list followed by the original list of its fallback, as if all were updated at once |
| `MfUtil.FallbackHasNoFallback` | src/lib/mfutil.cpp:205-216 | a fallback name has no dash, is another name, and does not fall back on anything |
| `Resolver.PartBeforeDashIsFallback` | src/lib/mfutil.cpp:206 | a name with a dash falls back on the part before its first dash, if that is not empty |
| `Resolver.LeadingDashIsSkipped` | src/lib/mfutil.cpp:206 | a dash in front of a name does not change what it falls back on |
| `MfUtil.GetFeedbackDirLists` | src/lib/mfutil.cpp:93-184 | for any chain length the loops compute the closed form: the contributions from the most derived theme to the default one, then those of the fallback name; None without the default theme |
| `CandidateLists.ListHoldsChain` | src/lib/mfutil.cpp:149-184 | for a theme with a chain, the list of a feedback holds exactly the versions that the themes of the chain have, each once: those of a theme before those of its ancestors, the application's before the common one; other entries have another name |
| `CandidateLists.FallbackFollows` | src/lib/mfutil.cpp:199-219 | a name with a dash has the whole list of its first part, if that is a feedback, behind its own entries; every other name has entries of its own only |
| `CandidateLists.FallbackNameIsFirstPart` | src/lib/mfutil.cpp:206 | the fallback name is what stands between the leading dashes and the next dash or the end |
| `CandidateLists.Layout` | src/lib/mfutil.cpp:228-252 | where the common and the application directories of a theme are |
| `CandidateLists.NamesAreLowerCase` | src/lib/mfutil.cpp:307 | a name is usable if it consists of small letters, digits, underscores, dots and dashes |
| `CandidateLists.UsableEntries` | src/lib/mfutil.cpp:303-316 | of a listing exactly the entries with such names are kept, in their order |
| `Resolver.OverridesAreAligned` | src/lib/mfutil.cpp:261-292 | the base list has the union of common and application names, each once, common names at their index, and differs from the common list exactly at the overridden names |
| `Resolver.NamesAreStable` | src/lib/mfutil.cpp:68-184 | for every theme, broken chains included, the names of the lists are the application's names, distinct and in the same order, and no list is empty |
| `Resolver.BrokenChainMeansDefault` | src/lib/mfutil.cpp:99-106 | a theme that no chain leads to gives the lists of the default theme |
| `Resolver.PlainExactlyWhen` | src/lib/mfutil.cpp:149-184 | for every theme and application the resolver's lists, across chain and fallback, are those of the plain reading exactly if no derived theme of the chain is misread: none has a version of an application-only feedback for an application whose name ends in the section "meegotouch" |
| `Resolver.AlwaysPlainExactlyWhen` | src/lib/mfutil.cpp:161-166 | all installed themes are resolved plainly exactly for applications whose name does not end in that section |
| `Resolver.ResolvedDirsAreClean` | src/lib/mfutil.cpp:228-252 | every candidate directory contains the theme prefix once, at its start, exactly if no theme of the chain contributes a directory in which the application's name brings the prefix in once more |
| `Resolver.PlainNamesFit` | src/lib/mfutil.cpp:228-252 | an application name without '/' never does |
| `Resolver.AppsCanCollide` | src/lib/mfmanager.cpp:361-372 | an application named like another one followed by the theme prefix has other directories with the same cache keys |
| `CacheKeys.ListsAreAdjacent` | src/lib/mfmanager.cpp:361-372 | in every candidate list, directories with the same key are next to each other |
| `Clashes.FittingAppsAreApart` | src/lib/mfmanager.cpp:361-408 | applications whose names do not bring in the theme prefix have keys that are apart, under all themes |
| `Clashes.FirstLoadIsCaught` | src/lib/mffeedback.cpp:63-93 | a cached handle with the key of a searched directory is taken, whatever its own directory is |
| `Clashes.AgreementExactlyWhen` | src/lib/mfmanager.cpp:361-408 | slots agree with the resolver in all runs of given applications and themes, whenever the queue is empty, exactly if the keys are apart; otherwise there is a run with two sessions in which they do not |
| `OddRuns.SharedKeysDisagree` | src/lib/mfmanager.cpp:361-372 | an installation with two applications that share a key, and so with a run in which slots disagree |
| `Text.HexRoundTrip` | src/lib/mfmanager.cpp:369 | the base 16 number in a key can be read back and contains no '#' |
| `HandleInvariants.KeyTellsBackend` | src/lib/mfmanager.cpp:361-372 | equal keys have equal backends and equal directories after removal of the prefix, for all strings |
| `HandleInvariants.KeyInjective` | src/lib/mfmanager.cpp:361-408 | for directories that contain the theme prefix once, equal keys mean the same directory and backend |
| `HandleInvariants.FirstLoadKeeps` | src/lib/mffeedback.cpp:63-93 | loading a handle adds one reference to a live handle or creates one cached under its own key, changes nothing else, and keeps cache and backend calls consistent |
| `HandleInvariants.ReleaseKeeps` | src/lib/mffeedback.cpp:135-143 | dropping a reference removes the handle and its cache entry together when it was the last, restores the counts, and leaves every slot showing what it showed |
| `HandleInvariants.SwapSlotKeeps` | src/lib/mffeedback.cpp:116-144 | one round of the loop keeps the invariant on cache, counts, slots and calls, touches no other slot, and leaves in this slot what the scan found |
| `HandleInvariants.FirstLoadScans` | src/lib/mffeedback.cpp:63-130 | cache transparency: as long as all live handles are of wanted directories, which every load keeps, the result on a connected backend has the directory and state that a scan without a cache gives, if no directory searched has the key of a wanted one that the scan does not give |
| `HandleInvariants.CleanDirsAreApart` | src/lib/mfmanager.cpp:361-408 | this is so for directories that contain the theme prefix once |
| `HandleInvariants.ScanFindsFirst` | src/lib/mffeedback.cpp:126-130 | the scan gives the first existing directory of the list that the backend has something for, data or silence on purpose, with just that, and nothing exactly when there is none |
| `HandleInvariants.LoadedFeedbackPlays` | src/lib/mffeedback.cpp:95-145 | after a load the slot of a connected backend whose keys are apart holds a live handle of that directory in that state, or none |
| `HandleInvariants.LoadFeedbackKeeps` | src/lib/mffeedback.cpp:95-145 | a load keeps the invariant and every other feedback's slots, and every slot of a connected backend shows what the scan of the list gives, if the keys are apart |
| `HandleInvariants.ReloadChangesNothing` | src/lib/mffeedback.cpp:116-144 | loading the same list again changes neither live handles, counts, cache nor slots, and calls no backend, whatever the states of the backends and the keys are |
| `HandleInvariants.ReloadSparesBackend` | src/lib/mffeedback.cpp:116-144 | at any later time: if the slot of a connected backend shows what the scan gives, a reload makes no call to that backend, keeps its handles and their counts, and the slot, whatever the other backends are |
| `Teardown.UnloadFeedbackKeeps` | src/lib/mffeedback.cpp:56-61 | destroying a feedback releases its references, keeps the invariant and all other feedbacks |
| `Teardown.PurgeEntryKeepsLedger` | src/lib/mfmanager.cpp:471-477 | a handle that is unloaded and then deleted returns its data to the backend once |
| `Teardown.DisconnectIsolates` | src/lib/mfmanager.cpp:461-479 | for any order of the hash, exactly the handles and slots of the lost backend go, and all other handles, counts, cache entries and slots stay |
| `Teardown.ResourcesConserved` | src/lib/mffeedbackhandle.cpp:30-95 | for each backend, loads that gave data minus unloads is the number of its live Ready handles |
| `Teardown.ShutdownReturnsEverything` | src/lib/mfmanager.cpp:410-417 | after deleteCache no handle is left and each backend has been asked to unload as often as it loaded |
| `Sessions.LoadListsKeeps` | src/lib/mfsession.cpp:82-87 | the loop over all lists keeps the invariant and all other sessions, and at its end every feedback shows its own list, if the keys are apart |
| `Sessions.UnloadHashKeeps` | src/lib/mfsession.cpp:44-53 | deleting a session's feedbacks, in any order, keeps the invariant and all other sessions |
| `MfManager.AddNewKeepsDistinct` | src/lib/mfmanager.cpp:315-337 | the duplicate check leaves a backend list without duplicates that holds all loaded plugins, the earlier ones in front |
| `MfManager.IndexOfDistinct` | src/lib/mfmanager.cpp:383 | in such a list the position looked up for a handle's backend is the one it was loaded for |
| `MfManager.MfManager.LoadBackendPlugins` | src/lib/mfmanager.cpp:262-347 | the list grows by the new plugins, each of which starts its first connection attempt once |
| `MfManager.MfManager.SearchFromCache` | src/lib/mfmanager.cpp:361-372 | the live handle cached for this directory and backend, or none |
| `MfManager.MfManager.AddToCache` | src/lib/mfmanager.cpp:374-392 | the key built from the handle is the key used for searching; an existing entry is kept |
| `MfManager.MfManager.RemoveFromCache` | src/lib/mfmanager.cpp:394-408 | the entry of the handle's own key goes |
| `MfManager.MfManager.LoadHandle` | src/lib/mffeedbackhandle.cpp:42-80 | with the backend Connected, the directory existing and an answer for it, the handle has that directory and state, and a load is counted exactly for data; otherwise nothing is loaded; data it had is unloaded once the directory is known to exist |
| `MfManager.MfManager.ConnectedIsUp` | src/lib/mfbackendbase.cpp:65-70 | the backends that the manager loads on are those that are up in the daemon's machine |
| `HandleInvariants.LoadIntoKeepsLedger` | src/lib/mffeedbackhandle.cpp:42-80 | loading a handle again, whatever it holds, returns what it held once and keeps the calls consistent, even when another backend loads it |
| `MfManager.MfManager.UnloadHandle` | src/lib/mffeedbackhandle.cpp:82-95 | the data is returned if there is any, and the handle is Empty |
| `MfManager.MfManager.DeleteHandle` | src/lib/mffeedbackhandle.cpp:30-35 | the destructor unloads a Ready handle only |
| `MfManager.MfManager.AttachHandle` | src/lib/mffeedbackhandle.cpp:103-106 | one reference more |
| `MfManager.MfManager.DetachHandle` | src/lib/mffeedbackhandle.cpp:108-115 | one reference less, and deletion when none is left |
| `MfManager.MfManager.UnloadHandlesForABackend` | src/lib/mfmanager.cpp:461-479 | erasing while iterating is the purge, in some order that lists every key once |
| `MfManager.MfManager.DeleteCache` | src/lib/mfmanager.cpp:410-417 | deleting and erasing every entry, in some order that lists every key once |
| `MfManager.MfManager.SetVolume` | src/lib/mfmanager.cpp:426-431 | the entry of this identity and backend is replaced, if the identity is in range, and no other entry changes |
| `MfManager.MfManager.LoadTheme` | src/lib/mfmanager.cpp:419-424 | the theme is stored and one event with it is queued for each connected session, in their order: the effect of the daemon machine's action |
| `MfManager.MfManager.BackendConnected` | src/lib/mfmanager.cpp:433-459 | the current theme is announced to all sessions: the effect of delivering an established notice in the daemon machine |
| `MfFeedback.MfFeedback.LoadHandle` | src/lib/mffeedback.cpp:63-93 | the handle found in the cache, a new one, or none, with one reference taken; handles, cache and backend calls change as in the function on values |
| `MfFeedback.MfFeedback.LoadSlot` | src/lib/mffeedback.cpp:116-144 | the new reference is taken before the old one is dropped |
| `MfFeedback.MfFeedback.Load` | src/lib/mffeedback.cpp:95-145 | all slots are replaced one after the other; name and volume priority come from the first directory; an empty list changes nothing |
| `MfFeedback.NamedPriority` | src/lib/mffeedback.cpp:105-114 | a name that starts with the prefix, a number and an underscore has that number as its volume priority |
| `MfFeedback.OtherPriorities` | src/lib/mffeedback.cpp:105-114 | a name that does not start with the prefix leaves the priority as it was, and one with the prefix but no number gives 0 |
| `MfFeedback.MfFeedback.Unload` | src/lib/mffeedback.cpp:147-162 | all slots are released one after the other |
| `MfSession.MfSession.constructor` | src/lib/mfsession.cpp:30-42 | the session has no feedbacks yet and is the last of the listeners to theme changes |
| `MfSession.MfSession.Setup` | src/lib/mfsession.cpp:61-100 | with the flag set nothing happens; otherwise one feedback is created and loaded for every list of the resolver, and the flag is released |
| `MfSession.MfSession.ThemeChanged` | src/lib/mfsession.cpp:102-122 | every hashed feedback is reloaded from the resolver's list for the new theme |
| `MfSession.MfSession.Destroy` | src/lib/mfsession.cpp:44-53 | every feedback is released, in some order, and the hash is empty |
| `Reconnection.MfBackendBase.TryConnect` | src/lib/mfbackendbase.cpp:99-115 | the failure is counted first, then a delay of 1, 5, 10, 30 or from the fifth failure on 120 seconds is started unless the timer runs |
| `Reconnection.MfBackendBase.ConnectionDone` | src/lib/mfbackendbase.cpp:117-129 | success resets the failures and is announced, failure tries again |
| `Reconnection.MfBackendBase.Connecting` | src/lib/mfbackendbase.cpp:142-147 | an attempt is in flight; an earlier one without a result has been overtaken |
| `Reconnection.MfBackendBase.MarkConnected` | doc/src/tutorial.dox:51 | init() sets the state to Connected; that is announced only if it was before |
| `Reconnection.MfBackendBase.Cleanup` | src/lib/mfbackendbase.cpp:131-140 | init() has been awaited, the timer is stopped and the signals are disconnected; a result may still be to come |
| `Reconnection.StepKeepsPromise` | src/lib/mfbackendbase.cpp:99-147 | no step strands a backend; from a state with exclusive attempts a step keeps them exclusive exactly if it is not a loss at a bad time: one that neither ends an announced connection nor is reported in the main thread with the timer running |
| `Reconnection.NeverStranded` | src/lib/mfbackendbase.cpp:99-147 | in every run a backend whose connection has not been announced has its timer running, an attempt in flight or a call queued; exactly one of announced connection, timer, attempt and queued call is there, at every point of the run, exactly if all losses come at good times |
| `Reconnection.DelayForEveryFailure` | src/lib/mfbackendbase.cpp:99-129 | every failure since the last success has started a delay, at every point of a run, exactly if tryConnect never finds its timer running |
| `Reconnection.EveryFailureStartsItsDelay` | src/lib/mfbackendbase.cpp:36-45 | under that condition the delays since the last success are 1, 5, 10, 30 seconds and then always 120 |
| `Reconnection.ProperLosses` | src/lib/mfbackendbase.cpp:99-147 | a step keeps attempts exclusive and skips no delay exactly if it reports a loss only of an announced connection |
| `Reconnection.BackOffLaw` | src/lib/mfbackendbase.cpp:99-129 | in every run: the delays of an outage never decrease and lie between 1000 and 120000 ms, the k-th is at least interval k, there are no more of them than failures, and an announced connection starts the law over |
| `Reconnection.SpuriousLossSkipsAnInterval` | src/lib/mfbackendbase.cpp:103-114 | a run in which a loss is reported while the timer is running and a delay is skipped |
| `Agreement.LoadSessionKeeps` | src/lib/mfsession.cpp:61-122 | setting up or reloading a session, for the current theme or for an older one with a later theme event pending, keeps the daemon's invariant: its slots agree or a theme event is pending, and all other sessions stay as they were |
| `Agreement.DeliverLostKeeps` | src/lib/mfmanager.cpp:443-479 | processing a loss keeps the daemon's invariant, for any order of the hash: slots that are emptied although the connection of their backend is announced have an established notice pending |
| `Agreement.DeliverEstablishedKeeps` | src/lib/mfmanager.cpp:433-459 | processing an established notice keeps the daemon's invariant: the slots it stood for now have a theme event with the current theme pending |
| `Agreement.LoadThemeKeeps` | src/lib/mfmanager.cpp:419-424 | a theme change keeps the daemon's invariant: the last pending theme event of every session carries the current theme |
| `Agreement.LoseConnectionKeeps` | src/lib/mfbackendbase.cpp:47-48 | a loss, in whatever thread and state, keeps the daemon's invariant: a backend that is announced again before its loss is processed is announced behind it |
| `Agreement.MarkConnectedKeeps` | doc/src/tutorial.dox:51 | a backend that sets itself to Connected keeps the daemon's invariant |
| `Agreement.CloseSessionKeeps` | src/lib/mfsession.cpp:44-53 | destroying a session, in any order of its hash, keeps the daemon's invariant for all others |
| `Runs.ActionKeeps` | src/lib/mfmanager.cpp:419-479 | every action of the daemon keeps its invariant: handles, sessions and queue are consistent, and every slot of an announced backend agrees with the resolver or has something pending that will make it agree |
| `Runs.CacheAndCountsAgree` | src/lib/mfmanager.cpp:361-417 | in every reachable state: live handles are cached under their own key and nowhere else, cache entries are live, and each count is the number of slots holding the handle, at least one |
| `Runs.BackendsBalance` | src/lib/mfbackendbase.cpp:65-89 | in every reachable state the calls to each backend are consistent and balance with its live Ready handles |
| `Runs.EventualAgreement` | src/lib/mfsession.cpp:61-122 | in every reachable state with an empty queue, every slot of a set-up session and a backend whose connection is announced holds a live handle of the first existing candidate that the backend has something for, Ready or Ignored as that is, or none if there is no such candidate, if the keys of the applications and themes so far are apart |
| `Isolation.IdleBackendsAgree` | src/lib/mfbackendbase.cpp:117-129 | with an empty queue and keys that are apart, the slots of a set-up session agree on every backend that is Connected, has no attempt in flight, and either has no timer running or has had no attempt overtaken |
| `OddRuns.MarkedBackendDisagrees` | doc/src/tutorial.dox:51 | a run without losses after which the queue is empty and a Connected backend's slots do not agree: its attempt has marked it and is not finished |
| `OddRuns.OvertakenBackendDisagrees` | doc/src/tutorial.dox:51 | the same with no attempt in flight and the timer running: an overtaken attempt has marked the backend |
| `Runs.DeliveriesSettle` | src/lib/mfmanager.cpp:453-459 | deliveries alone empty the queue after exactly the backlog, and then everything agrees, under the same condition on keys |
| `Runs.AgreementIsReached` | src/lib/mfsession.cpp:102-122 | from every state that satisfies the invariant, delivering what is pending empties the queue, and leads to agreement under the same condition on keys |
| `Isolation.BackendsFollowTheMachine` | src/lib/mfbackendbase.cpp:36-54 | in every run of the daemon each backend is where the reconnection machine is after the inputs it had |
| `Isolation.NoStrandedBackend` | src/lib/mfbackendbase.cpp:99-147 | in every run of the daemon every backend whose connection has not been announced has its timer running, an attempt in flight or a call queued; exactly one of these, or the announced connection, is there at every point of the run exactly if its losses come at good times |
| `Isolation.DaemonBacksOff` | src/lib/mfbackendbase.cpp:99-129 | in every run the delays of every backend never decrease; each failure has started its delay at every point exactly if tryConnect never finds the timer running, and then the delays are those of the table |
| `Isolation.IsolatedExactlyWhen` | src/lib/mfmanager.cpp:443-479 | an action keeps this: a live handle means that its backend is connected or its loss is still to be processed; exactly if it is not a failed attempt of a connected backend with live handles and no loss pending |
| `Isolation.HandlesOfLiveConnections` | src/lib/mfmanager.cpp:443-479 | it holds at every point of a run exactly if the run has no such failed attempt |
| `Isolation.OrderlyRunsAreIsolated` | src/lib/mfmanager.cpp:443-479 | it holds in every run with losses at good times in which no attempt fails after marking its backend |
| `OddRuns.OverlappingAttemptBreaksIsolation` | src/lib/mfbackendbase.cpp:117-123 | a run in which every loss is reported by a Connected backend, attempts stop being exclusive after the first loss, and an attempt that fails while its backend is in use leaves handles behind without a notice |
| `MfConnection.MfConnection.Setup` | src/daemon/mfconnection.cpp:122-160 | a sound packet that announces version 1 gives a session for the name behind it, one that announces nothing for the text itself; another version or garbage changes neither name nor version; without a known version the connection is doomed |
| `MfConnection.HandshakeOutcome` | src/daemon/mfconnection.cpp:122-160 | the same for the connection as a whole, from its first packet on |
| `MfConnection.OtherVersionsAreDoomed` | src/daemon/mfconnection.cpp:130-155 | a new client that announces another number, or a text that is no number, is doomed and has no name |
| `MfConnection.PlaybackOutcome` | src/daemon/mfconnection.cpp:64-69 | one unsound request terminates the connection, whatever follows it; sound requests leave it as it is |
| `MfConnection.MfConnection.ReadData` | src/daemon/mfconnection.cpp:64-77 | requests are read in playback, data is discarded while waiting or doomed, anything else is a handshake |
| `MfConnection.MfConnection.SetupReady` | src/daemon/mfconnection.cpp:79-85 | the connection accepts playback requests |
| `MfConnection.MfConnection.KillMe` | src/daemon/mfconnection.cpp:87-97 | deletion is scheduled unless the session is being set up |
| `MfConnection.MfConnection.Terminate` | src/daemon/mfconnection.cpp:162-167 | the connection is terminated and its deletion scheduled |
| `MfConnection.LifetimesExactlyWhen` | src/daemon/mfconnection.cpp:64-97 | a step keeps one session at most inside setup, the flag set exactly then, and no connection scheduled for deletion while it waits, exactly if it does not read late data |
| `MfConnection.SetupIsNotInterrupted` | src/lib/mfsession.cpp:61-100 | a session inside setup lives until its setup ends, which releases the flag; a doomed connection stays doomed and owns no session |
| `MfConnection.LifetimesOverRuns` | src/daemon/mfconnection.cpp:79-97 | from the start of the daemon, lifetimes are in order at every point of a run exactly if no late data is read in it |
| `MfConnection.LateDataCanBlockAllSessions` | src/daemon/mfconnection.cpp:74-76 | a run in which data for a connection that was terminated inside another session's setup leaves the flag set with no session inside setup |
| `MfConnection.StuckForever` | src/lib/mfsession.cpp:63-67 | from such a state no session will ever be set up again |
| `Volumes.GetVolumesOfDir` | src/daemon/mfconfiguration_p.cpp:219-256 | for entries in any order, the string values of the directory by backend, unknown values as medium |
| `Volumes.EmitVolumeChanged` | src/daemon/mfconfiguration_p.cpp:118-160 | the change announced for a key, or none |
| `Volumes.VolumeNamesAreRead` | src/daemon/mfconfiguration_p.cpp:93-116 | "off", "low", "medium" and "high", each letter small or capital, are read as these volumes, and everything else counts as medium |
| `Volumes.FullReadEntries` | src/daemon/mfconfiguration_p.cpp:258-286 | a full read gives the entries of the root and of its directories "priority1" and "priority2" |
| `Volumes.WriteOneEntry` | src/daemon/mfconfiguration_p.cpp:258-286 | a write changes the full read of the one directory that holds the key, at the backend's name |
| `Volumes.DocumentedKeysFollow` | src/daemon/mfconfiguration_p.cpp:133-147 | every documented key is parsed into its own volume identity and backend |
| `Volumes.FollowsExactlyWhen` | src/daemon/mfconfiguration_p.cpp:118-160 | following a write equals a full read afterwards, for all contents and values, exactly for keys that are not misnumbered (priority 0, or a number not written the usual way) |
| `Volumes.OtherNumbersAreMisnumbered` | src/daemon/mfconfiguration_p.cpp:133-147 | every other way to write a priority number, and every way to write 0, makes a misnumbered key |
| `Volumes.MisnumberedKeys` | src/daemon/mfconfiguration_p.cpp:133-147 | such keys exist below any root |
| `Volumes.IncrementalEqualsFullRead` | src/daemon/mfconfiguration_p.cpp:258-286 | after any sequence of such writes the followed table is that of a full read |

## Left out

- Handles as separate objects: Dafny has no deletion, so they are values in the manager's map and the
  methods of a handle are methods of the manager; aliasing of handle objects is by identity.
- Plugin loading with QPluginLoader and dlopen: the instances found are an input of `LoadBackendPlugins`.
- Files, QDir, QSettings and QRegExp: an immutable map of themes and listings, and a predicate on names.
- Threads: a connection attempt is a step that may set the state and ends later with any result; playing
  in another thread is visible only as a loss that is reported through the queue.
- `MfFeedback::play`, volumes at playback, and the latency limit: two plain loops over the slots.
- The daemon machine continues where the source ends the process because an application has no feedback at
  all; the session then has no slots to speak of. `MfSession.Setup` models the end.
- GConf values that are unset or not strings as changes, GConf errors, and a missing GConf client.
- Case-insensitive comparison of volume values beyond ASCII letters.
- The widths of the failure counter and the reference count: both are unbounded integers.
- Sockets, streams, device states, logging, timestamps, the command line and the dummy backends.
