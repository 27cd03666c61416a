# Proofs about the resource schedule subsystem

A Dafny 4.11 model of the small stateful engines inside the resource schedule service, its client, its plugins and
its executor, with the properties each of them must keep over every run. `dafny verify dfyconfig.toml` checks all of it.

Each engine has a specification on plain values (a step function, or a reading of the whole history of events) and,
where the source changes state in place, a class with the source's fields whose methods are proved to take exactly
the specified step. Calls that leave an engine are recorded in ghost traces: reports, switch calls, kernel requests,
calls through the proxy. The theorems are about all runs of the specification, and the methods' contracts carry them
to the code. Clocks, kernel answers, allocation and the results of remote calls are parameters or arbitrary choices.

| file | models |
|---|---|
| `ClientSpec.dfy`, `ResSchedClient.dfy` | listeners registered at a service that can die and come back |
| `Supervisor.dfy`, `CgroupSpec.dfy`, `CgroupAdjuster.dfy` | process records and their scheduling groups, with kernel refusals |
| `LruSpec.dfy`, `LruCache.dfy`, `PermissionGate.dfy` | the LRU cache and the permission check over it |
| `RateLimiter.dfy`, `ResSchedService.dfy` | the request limiter and the accounting of refusals |
| `AudioRenderer.dfy`, `AudioCapturer.dfy`, `AudioObserver.dfy` | audio sessions folded into per-process reports |
| `NetworkLatency.dfy`, `AppStartup.dfy`, `OobeManager.dfy` | requests that expire, startup bursts, tasks held back |
| `BatteryLimit.dfy`, `FocusGames.dfy`, `ScreenRequests.dfy` | three state machines of the SoC performance plugin |
| `SignatureValidator.dfy`, `ExecutorInit.dfy`, `StorageSize.dfy` | signature cache, fragment reassembly, rounding to a power of two |

## What the proofs found

- Rate limiter: the bound over any second is 1299 accepted requests, not 1300, since the request that opens a
  window counts in it; 1299 overall and 500 for one uid are both reached.
- `RoundStorageSize` leaves its loop exactly for sizes up to 2^31 (megabytes at its only caller); above, the 32-bit
  product becomes zero and the loop never ends.
- Renderer reports: if one batch both starts and ends all playing of a process that was not tracked, a STOP goes out that
  no RUNNING came before. The reports alternate exactly when no batch does that to the process, in particular when each
  session appears at most once per batch.
- Battery limiting: a configured threshold of -1 is taken for the mark that there is no limit, and the boost call then
  stays on without one. The last boost call tells whether a limit is in force, over all runs, exactly when -1 is not
  configured or is the only threshold. Moving from one threshold to another lifts nothing, so a tag that only the first
  names stays limited after recovery; and a threshold of -1 is never recovered from. Recovery lifts every limit, over
  all runs of any configuration, exactly when each tag that some threshold limits is named by all thresholds and a
  threshold of -1 limits no tag, or -1 is the only threshold. And a value below 32-bit range wraps when it is passed on,
  and picks a wrong threshold exactly if it wraps above some threshold other than the maximum.
- Focus flag: the incremental flag departs from the full recomputation exactly at an event that turns a focused app into
  a game or out of one while all other focused apps are games: an uninstall, a cold start, or a type given at last by an
  extension or by a repeated focus; a repeated focus of the only focused app does no harm. Losing focus repairs the flag.
- Client: an event takes a client out of step with its own tables exactly when it gains a proxy without recovering, by a
  plain connect or by a re-add notice that finds no death recipient, while some listener or callback is there. Over every
  run, the client counts a pair as registered exactly when it told a proxy of it at some moment since which the pair
  never was without listeners and no death notice came; so what is left behind stays so until the pair is registered
  again or a re-add notice finds the service. Without a death recipient no notice comes: over every run, the running
  service holds what the client believes exactly when the proxy leads to it or the client believes nothing, and a client
  whose proxy died unwatched never gets through again, however often the service is added again.
- Signature cache: each check answers about the world its verdict was found in, so it is right exactly when the uid's
  signature has not changed since, as far as the configured signature can tell. A change nobody is told of leaves all
  checks right exactly when every cached verdict would come out the same. Nothing in the repository but a unit
  test sends the install notice, so these conditions are the ones to go by.
- Uid cache: a uid is remembered by bundle name alone and only an install notice drops it, so after a switch of users a
  check by name can still answer for the earlier user's uid, although no signature and no owner has changed. Exactly when
  it nevertheless agrees is proved.

## Model

| member | source | states |
|---|---|---|
| ClientSpec.RunIsConsistent | ressched/interfaces/innerkits/ressched_client/src/res_sched_client.cpp:225-286 | over every run: no proxy means nothing counts as registered; only pairs with listeners do; no pair has an empty list and no list a listener twice |
| ClientSpec.RecoveryLastsUntilDeath | ressched/interfaces/innerkits/ressched_client/src/res_sched_client.cpp:467-507 | after a re-add notice that finds the service, the registered pairs are exactly the pairs with listeners, until a death notice comes or the client is destroyed |
| ClientSpec.StaysSynced | ressched/interfaces/innerkits/ressched_client/src/res_sched_client.cpp:253-286 | that agreement survives any registering, unregistering, connecting and re-adding |
| ClientSpec.StepLosesStepExactly | ressched/interfaces/innerkits/ressched_client/src/res_sched_client.cpp:359-398 | from any consistent client in step, an event keeps it in step exactly unless it gains a proxy without recovering while some listener or callback is there |
| ClientSpec.RegisteredExactlyWhenTold | ressched/interfaces/innerkits/ressched_client/src/res_sched_client.cpp:225-286 | over every run, a pair counts as registered exactly when a proxy was told of it, by a registration while connected or a recovery, at some moment since which it never was without listeners and no death notice came; and the same for the load notifier |
| ClientSpec.ServiceHoldsWhatIsBelievedExactly | ressched/interfaces/innerkits/ressched_client/src/res_sched_client.cpp:225-286 | over every run, unseen deaths included, the running service holds exactly what the client believes if and only if the proxy leads to it or the client believes nothing; otherwise it holds nothing |
| ClientSpec.UnwatchedDeathIsForever | ressched/interfaces/innerkits/ressched_client/src/res_sched_client.cpp:388-392 | a client whose proxy was gained without a death recipient and has died gets nothing through any more, whatever it registers and however often the service is added again |
| ClientSpec.UnwatchedDeathHappens | ressched/interfaces/innerkits/ressched_client/src/res_sched_client.cpp:388-392 | a run in which the client is in step with its own tables after a re-add notice and the service holds nothing |
| ClientSpec.ListenersAreThoseRegistered | ressched/interfaces/innerkits/ressched_client/src/res_sched_client.cpp:626-678 | over every run, a pair's listeners are exactly those registered for it and not unregistered since, in the order of their registrations; registering one again neither doubles nor moves it, and events of other pairs change nothing |
| ClientSpec.CallbacksAreThoseRegistered | ressched/interfaces/innerkits/ressched_client/src/res_sched_client.cpp:571-594 | the same for the load callbacks |
| ClientSpec.ObjectsAreThoseAllocated | ressched/interfaces/innerkits/ressched_client/src/res_sched_client.cpp:509-533 | over every run, a callback object exists exactly once an event that needs it could allocate it |
| ClientSpec.ConnectedExactlyWhenLinked | ressched/interfaces/innerkits/ressched_client/src/res_sched_client.cpp:359-443 | over every run, the client has a proxy exactly when some event gave it one since the last death notice, and none once destroyed |
| ClientSpec.ReconnectingAloneDoesNotRecover | ressched/interfaces/innerkits/ressched_client/src/res_sched_client.cpp:359-398 | the failing input of those two: a listener registered without a proxy, then a plain connect |
| ResSchedClient.ResSchedClient.TryConnect | ressched/interfaces/innerkits/ressched_client/src/res_sched_client.cpp:359-398 | when a proxy is kept or gained, and when that counts as success; a missing death recipient leaves a proxy but is an error |
| ResSchedClient.ResSchedClient.StopRemoteObject | ressched/interfaces/innerkits/ressched_client/src/res_sched_client.cpp:434-443 | the proxy and everything believed registered go together; the tables stay |
| ResSchedClient.ResSchedClient.RegisterEventListener | ressched/interfaces/innerkits/ressched_client/src/res_sched_client.cpp:253-273 | the specified step, whose effect on the table ListenersAreThoseRegistered reads from the events; a service that got all the calls made so far holds exactly what the client believes |
| ResSchedClient.ResSchedClient.UnRegisterEventListener | ressched/interfaces/innerkits/ressched_client/src/res_sched_client.cpp:275-286 | the specified step, with the same agreement |
| ResSchedClient.ResSchedClient.UnRegisterEventListenerLocked | ressched/interfaces/innerkits/ressched_client/src/res_sched_client.cpp:535-544 | a pair left without listeners is unregistered when there is a proxy, otherwise nothing changes |
| ResSchedClient.ResSchedClient.RegisterSystemloadNotifier | ressched/interfaces/innerkits/ressched_client/src/res_sched_client.cpp:225-239 | the specified step: one registration for all callbacks, made once there is a callback and a proxy |
| ResSchedClient.ResSchedClient.UnRegisterSystemloadNotifier | ressched/interfaces/innerkits/ressched_client/src/res_sched_client.cpp:241-251 | the specified step: unregistered with the last callback |
| ResSchedClient.ResSchedClient.RecoverEventListener | ressched/interfaces/innerkits/ressched_client/src/res_sched_client.cpp:492-507 | every pair of the nested table is registered again by exactly one call each, already known or not, if there is a proxy |
| ResSchedClient.ResSchedClient.OnAddSystemAbility | ressched/interfaces/innerkits/ressched_client/src/res_sched_client.cpp:467-490 | the specified step: connect, then recover the event listeners, one call for each pair, and the load notifier, each if its callback object exists or can be made |
| ResSchedClient.InnerEventListener.RegisterEventListener | ressched/interfaces/innerkits/ressched_client/src/res_sched_client.cpp:626-651 | the pair's earlier listeners are all still there in the same order, a new one is last, one already there changes nothing, and all other pairs are as before; the nested type, group, list table shows exactly that |
| ResSchedClient.InnerEventListener.UnRegisterEventListener | ressched/interfaces/innerkits/ressched_client/src/res_sched_client.cpp:653-678 | the pair loses that listener and no other, the rest keeping their order, and other pairs are as before; an emptied list goes and an emptied inner map with it |
| ResSchedClient.InnerEventListener.OnReceiveEvent | ressched/interfaces/innerkits/ressched_client/src/res_sched_client.cpp:680-714 | an event reaches the pair's listeners in order; an unknown pair is an error |
| ResSchedClient.InnerEventListener.IsInnerEventMapEmpty | ressched/interfaces/innerkits/ressched_client/src/res_sched_client.cpp:716-725 | true exactly when the pair has no listener |
| ResSchedClient.InnerEventListener.GetRegisteredTypesAndGroup | ressched/interfaces/innerkits/ressched_client/src/res_sched_client.cpp:727-738 | every type with exactly its groups, each listed once |
| ResSchedClient.SystemloadLevelListener.RegisterSystemloadLevelCb | ressched/interfaces/innerkits/ressched_client/src/res_sched_client.cpp:571-585 | the earlier callbacks are all still there in the same order; a null callback or one already there changes nothing, any other comes last |
| ResSchedClient.SystemloadLevelListener.UnRegisterSystemloadLevelCb | ressched/interfaces/innerkits/ressched_client/src/res_sched_client.cpp:587-594 | the callback is gone and the others keep their order |
| CgroupSpec.LedFollowTheirLeaders | ressched/plugins/cgroup_sched_plugin/framework/sched_controller/cgroup_adjuster.cpp:112-134 | after adjusting everything, a render, GPU or child process whose host is known as one and a normal or extension process is asked for the host's current group, whatever the kernel refused; it is in that group unless it was itself refused |
| CgroupSpec.LeadersTakeTheirOwnGroup | ressched/plugins/cgroup_sched_plugin/framework/sched_controller/cgroup_adjuster.cpp:137-147 | a normal or extension process is asked for the group of its own state, and is in it unless refused |
| CgroupSpec.StrayFollowersStay | ressched/plugins/cgroup_sched_plugin/framework/sched_controller/cgroup_adjuster.cpp:137-147 | a render, GPU or child process without such a host is not touched |
| CgroupSpec.UnrefusedAdjustmentSettles | ressched/plugins/cgroup_sched_plugin/framework/sched_controller/cgroup_adjuster.cpp:137-147 | without refusals every process ends where it belongs; from there an adjustment attempts nothing and changes no current group and no report |
| CgroupSpec.SecondAdjustmentIsSilent | ressched/plugins/cgroup_sched_plugin/framework/sched_controller/cgroup_adjuster.cpp:137-147 | a second adjustment with the same state and source makes no kernel attempt |
| CgroupSpec.LeaderMovesAtMostOnce | ressched/plugins/cgroup_sched_plugin/framework/sched_controller/cgroup_adjuster.cpp:137-147 | adjusting everything again and again with the same state and any refusals, a process that follows no host moves at most once, to its own group, in the first round not refused to it, with one report |
| CgroupSpec.FollowerMovesAtMostTwice | ressched/plugins/cgroup_sched_plugin/framework/sched_controller/cgroup_adjuster.cpp:112-134 | over the same runs a following process moves at most twice, and is with its host for good once the host and then it have been let through |
| CgroupSpec.OneMoreLeader | ressched/plugins/cgroup_sched_plugin/framework/sched_controller/cgroup_adjuster.cpp:101-147 | visiting one more leader disturbs neither what was done for the others nor what they were refused, in any order of visits |
| CgroupSpec.RunKeepsChains | ressched/plugins/cgroup_sched_plugin/framework/sched_controller/cgroup_adjuster.cpp:213-230 | over every run of process starts, ends and adjustments, with any refusals, each process's group-change reports form a chain: each starts where the one before ended, changes the group, and the last ends in the current group with the previous group remembered |
| CgroupAdjuster.GroupByState | ressched/plugins/cgroup_sched_plugin/framework/sched_controller/cgroup_adjuster.cpp:159-197 | which group goes with which state, from the windows and abilities themselves: 4 exactly for the focused process, 1 and 2 exactly for the listed states, 0 otherwise |
| CgroupAdjuster.AdjustedByKind | ressched/plugins/cgroup_sched_plugin/framework/sched_controller/cgroup_adjuster.cpp:137-147 | from the fields of the records: every render, GPU or child process is asked to be, and unless refused is, where its host now is; every normal or extension process is asked for its own group, the default one at creation, and unless refused is there |
| CgroupAdjuster.GroupAtCreation | ressched/plugins/cgroup_sched_plugin/framework/sched_controller/cgroup_adjuster.cpp:165-169 | adjusting one process that is not its own host: a render process is asked for its host's group, or the default one if the host is not of the application, any other at creation for the default one; unless refused it is there |
| CgroupAdjuster.OnlyTheFocusedLeaderIsOnTop | ressched/plugins/cgroup_sched_plugin/framework/sched_controller/cgroup_adjuster.cpp:159-230 | after adjusting everything for a reason other than process creation, an unrefused leader is in the top group exactly when it has the focus, and then no other process has it |
| CgroupAdjuster.ComputeProcessGroup | ressched/plugins/cgroup_sched_plugin/framework/sched_controller/cgroup_adjuster.cpp:159-197 | the requested group is, for a render process, its host's current group or else 0; for any other 0 at creation, and otherwise the group of its own state; no other field of any record changes |
| CgroupAdjuster.ApplyProcessGroup | ressched/plugins/cgroup_sched_plugin/framework/sched_controller/cgroup_adjuster.cpp:199-234 | the kernel is asked exactly when the groups differ; current and previous group and the report change exactly when it agrees; no other record changes |
| CgroupAdjuster.AdjustFollowers | ressched/plugins/cgroup_sched_plugin/framework/sched_controller/cgroup_adjuster.cpp:111-134 | the loop over the record map asks exactly the host's followers for its current group, and attempts exactly those that are elsewhere |
| CgroupAdjuster.AdjustProcessGroup | ressched/plugins/cgroup_sched_plugin/framework/sched_controller/cgroup_adjuster.cpp:101-135 | one process adjusted and then its followers, record by record, in terms of the attempts the kernel refused |
| CgroupAdjuster.AdjustAllProcessGroup | ressched/plugins/cgroup_sched_plugin/framework/sched_controller/cgroup_adjuster.cpp:137-147 | all records after the loop, and exactly which were attempted, in terms of the state before and the refusals; in particular render, GPU and child processes are asked to be where their hosts now are, and normal and extension processes for the group of their own state, each being there unless refused; kinds, hosts and states stay |
| CgroupAdjuster.HandleProcessCreated | ressched/plugins/cgroup_sched_plugin/framework/sched_controller/cgroup_event_handler.cpp:345-380 | the record is started if need be and adjusted at once, as the two events of the runs above; a render, GPU or child process has the host given, known from now on, and is led by it if it is a process of the application that follows none; no other process's kind, host or state changes |
| CgroupAdjuster.NoteCreation | ressched/plugins/cgroup_sched_plugin/framework/sched_controller/cgroup_event_handler.cpp:345-371 | the record has the kind given and, for a follower, the host, which is known from now on; all groups stay |
| CgroupAdjuster.NameOnce | ressched/plugins/cgroup_sched_plugin/framework/sched_controller/supervisor.cpp:27-32 | a name is given once, and no group depends on it |
| Supervisor.Application.AddProcessRecord | ressched/plugins/cgroup_sched_plugin/framework/sched_controller/supervisor.cpp:127-133 | the record is kept under its own pid |
| Supervisor.Application.RemoveProcessRecord | ressched/plugins/cgroup_sched_plugin/framework/sched_controller/supervisor.cpp:135-147 | the record goes with its focus and its being a host; the focus stays on a record of the application |
| Supervisor.Application.GetProcessRecordNonNull | ressched/plugins/cgroup_sched_plugin/framework/sched_controller/supervisor.cpp:158-167 | an existing record unchanged, or a fresh one with no group and no reports |
| LruSpec.Inclusion | ressched/common/include/res_sched_lru_cache.h:34-61 | for capacities 1 <= c1 <= c2 and any trace, the smaller cache's recency list is a subsequence of the larger's, and equal to it until it has filled up |
| LruSpec.InclusionOfHits | ressched/common/include/res_sched_lru_cache.h:34-42 | a hit in the smaller cache is a hit with the same value in the larger |
| LruSpec.RunIsInRecencyOrder | ressched/common/include/res_sched_lru_cache.h:34-61 | after any trace the list is sorted by last use and holds the value last put under each key, so the evicted entry is the least recently used |
| LruSpec.RunIsBounded | ressched/common/include/res_sched_lru_cache.h:43-61 | distinct keys and at most capacity entries, over every trace |
| LruSpec.KeyLostOnlyWhenFull | ressched/common/include/res_sched_lru_cache.h:43-61 | over every trace, a key that was ever put is there, or the cache is full |
| LruCache.ResschedLruCache.Get | ressched/common/include/res_sched_lru_cache.h:34-42 | list and iterator map stay in step; a hit returns the value and moves its cell to the front, a miss changes nothing |
| LruCache.ResschedLruCache.Put | ressched/common/include/res_sched_lru_cache.h:43-61 | list and iterator map stay in step; the entry is in front, and the last one gone if there was no room |
| PermissionGate.CacheIsInvisible | ressched/services/resschedservice/src/res_sched_service.cpp:296-307 | with a fixed verifier, every call of every run is answered as a check without the cache would |
| PermissionGate.GrantsExactly | ressched/services/resschedservice/src/res_sched_service.cpp:279-308 | over every run with a fixed verifier, a call is granted exactly when its uid is listed for its type, or its type is not restricted to listed uids and open to all; it comes from a native process; and its token verifies to zero |
| PermissionGate.AdmittedTokenComesFirst | ressched/services/resschedservice/src/res_sched_service.cpp:279-308 | over every run, a native call of an open type brings its token to the front of the cache with what the verifier says of it, the others keeping their order and the last going if there was no room; any other call leaves the cache alone |
| PermissionGate.PermissionChecker.IsHasPermission | ressched/services/resschedservice/src/res_sched_service.cpp:279-308 | granted only to a native caller whose uid is listed for the type, or for a type not restricted to listed uids and open to all; and, when the cache holds what the verifier says, exactly when the token also verifies to zero; the cache takes the specified step |
| RateLimiter.AnySecondIsBounded | ressched/services/resschedservice/src/res_sched_service.cpp:907-939 | over any run with a monotone clock, any half-open second holds at most 1299 accepted requests, and at most 500 of one uid |
| RateLimiter.OverallBoundIsReached | ressched/services/resschedservice/src/res_sched_service.cpp:907-939 | a run with 1299 accepted requests in one second |
| RateLimiter.UidBoundIsReached | ressched/services/resschedservice/src/res_sched_service.cpp:907-939 | a run with 500 accepted requests of one uid in one second |
| RateLimiter.RefusalsAreJustified | ressched/services/resschedservice/src/res_sched_service.cpp:907-929 | with a monotone clock, a refused request finds at least 650 requests accepted within the last second, or at least 250 of its own uid |
| RateLimiter.RunIsGood | ressched/services/resschedservice/src/res_sched_service.cpp:931-939 | windows within both limits, their openers at least a second apart |
| ResSchedService.EveryRefusalIsAccountedFor | ressched/services/resschedservice/src/res_sched_service.cpp:863-905 | over any run, reported counts plus the pending count are the refusals; the flag is up exactly while some are pending; no report is empty |
| ResSchedService.DueReportIsWritten | ressched/services/resschedservice/src/res_sched_service.cpp:863-905 | over any run with unreported refusals, a check writes a report exactly when its reading is at least 14400000 ms after the first of them: one report, of that reading and of the number of refusals since the last report, after which only the check's own refusal is pending |
| ResSchedService.NothingIsReportedTwice | ressched/services/resschedservice/src/res_sched_service.cpp:863-875 | with all refusals reported, a check writes nothing |
| ResSchedService.SomeIsFirstUnreported | ressched/services/resschedservice/src/res_sched_service.cpp:898-905 | otherwise some refusal is the first unreported one, so that the two laws speak of every check of every run |
| ResSchedService.ReportsAreRare | ressched/services/resschedservice/src/res_sched_service.cpp:863-905 | with a monotone clock two fault events are at least four hours apart |
| ResSchedService.RequestGate.CheckAndUpdateLimitData | ressched/services/resschedservice/src/res_sched_service.cpp:931-939 | a due window check clears both counters and sets the next one; otherwise nothing changes |
| ResSchedService.RequestGate.IsLimitRequest | ressched/services/resschedservice/src/res_sched_service.cpp:907-929 | a request is refused exactly when its window is full overall or for its uid; the counters are those of the open window and the global one their sum |
| ResSchedService.RequestGate.ReportBigData | ressched/services/resschedservice/src/res_sched_service.cpp:863-875 | pending refusals are reported once due, and then neither pending nor flagged; over runs DueReportIsWritten says when and with which count |
| ResSchedService.RequestGate.IncreaseBigDataCount | ressched/services/resschedservice/src/res_sched_service.cpp:898-905 | one more pending; the first one sets the due time four hours ahead |
| ResSchedService.RequestGate.RemoteRequestCheck | ressched/services/resschedservice/src/res_sched_service.cpp:941-952 | one check extends the run the theorems are about, its report, its limit and its count each taking their specified step |
| AudioRenderer.TrackedMeansPlaying | ressched/sched_controller/observer/src/audio_observer.cpp:156-192 | over any batches, the tracked sessions are exactly those whose last event counting for them was RUNNING and not STOPPED, RELEASED or PAUSED with a pid from 1 to 2147483647, and no tracked set is empty |
| AudioRenderer.MapMeansPlaying | ressched/sched_controller/observer/src/audio_observer.cpp:156-221 | a process is in the map exactly when some session of it is playing |
| AudioRenderer.ReportsAlternateExactlyWithoutBlips | ressched/sched_controller/observer/src/audio_observer.cpp:61-84 | a process's reports alternate, RUNNING first, exactly when no batch starts and ends its playing while it is untracked; then the last report says whether it is tracked, and each STOP names the uid of its RUNNING |
| AudioRenderer.SessionsOnceAlternate | ressched/sched_controller/observer/src/audio_observer.cpp:61-84 | with each session at most once per batch the reports always alternate |
| AudioRenderer.BlipHappens | ressched/sched_controller/observer/src/audio_observer.cpp:194-221 | a batch whose STOP no RUNNING came before |
| AudioRenderer.BatchReports | ressched/sched_controller/observer/src/audio_observer.cpp:194-221 | what one batch reports about one process, by whether it was and is tracked |
| AudioRenderer.NewProcessReport | ressched/sched_controller/observer/src/audio_observer.cpp:156-221 | a batch that starts an untracked process reports it once, under the uid of its first start in the batch: RUNNING if some session of it plays at the end, STOP otherwise |
| AudioObserver.LastStateIsLast | ressched/sched_controller/observer/src/audio_observer.cpp:77-80 | a session's state remembered after a batch is that of its last event in it |
| AudioObserver.OnlyNamedHaveStates | ressched/sched_controller/observer/src/audio_observer.cpp:77-80 | and sessions the batch does not name are remembered no longer |
| AudioObserver.ChangesInPlace | ressched/sched_controller/observer/src/audio_observer.cpp:67-76 | each event of a batch is reported in its place, unless its session was left in that very state by the batch before |
| AudioObserver.AudioObserver.OnRendererStateChange | ressched/sched_controller/observer/src/audio_observer.cpp:52-84 | the map after the batch, its reports process by process, the session changes reported, and the states remembered |
| AudioObserver.AudioObserver.HandleInnerAudioStateChange | ressched/sched_controller/observer/src/audio_observer.cpp:135-154 | one event noted in the map, and the pids newly running or stopped collected |
| AudioObserver.AudioObserver.ProcessRunningSessionState | ressched/sched_controller/observer/src/audio_observer.cpp:156-174 | the session joins its process; a process not yet in the map is newly running |
| AudioObserver.AudioObserver.ProcessStopSessionState | ressched/sched_controller/observer/src/audio_observer.cpp:176-192 | the session leaves its process; pids out of range are ignored |
| AudioObserver.AudioObserver.HandleStartAudioStateEvent | ressched/sched_controller/observer/src/audio_observer.cpp:194-206 | one RUNNING report for each newly running process that still plays |
| AudioObserver.AudioObserver.HandleStopAudioStateEvent | ressched/sched_controller/observer/src/audio_observer.cpp:208-221 | one STOP report for each stopped process that no longer plays, and only those leave the map |
| AudioCapturer.TrackedMeansCapturing | ressched/sched_controller/observer/src/audio_observer.cpp:260-310 | over any run of begins, ends and mass unregistrations: both maps have the same pids, no set is empty, the sessions are those capturing, the uids those of the last begin |
| AudioCapturer.ReportsAlternate | ressched/sched_controller/observer/src/audio_observer.cpp:260-310 | BEGIN and END alternate per pid, and BEGINs less ENDs is one exactly for the tracked pids |
| AudioCapturer.ReportsAreOfChanges | ressched/sched_controller/observer/src/audio_observer.cpp:260-310 | over any run, a report goes out exactly when a process comes to be tracked or ceases to be, and names the uid of that begin, of that end, or for a mass unregistration of the last begin |
| AudioObserver.BatchTracksCaptures | ressched/sched_controller/observer/src/audio_observer.cpp:235-290 | after a batch a session is tracked exactly if its last entry with a pid other than 0 was RUNNING, not STOPPED or RELEASED, or was before in the absence of such entries |
| AudioObserver.AudioObserver.OnCapturerStateChange | ressched/sched_controller/observer/src/audio_observer.cpp:235-258 | a batch is the run of its events; null entries, pid 0 and other states count for nothing |
| AudioObserver.AudioObserver.ProcessCapturerBegin | ressched/sched_controller/observer/src/audio_observer.cpp:260-272 | the specified step and its report |
| AudioObserver.AudioObserver.ProcessCapturerEnd | ressched/sched_controller/observer/src/audio_observer.cpp:274-290 | the specified step and its report |
| AudioObserver.AudioObserver.ProcessCapturerEndCaseByUnregister | ressched/sched_controller/observer/src/audio_observer.cpp:292-310 | one END for each tracked pid, with the uid of its last begin; nothing stays tracked |
| NetworkLatency.PendingMeansLastWasLow | ressched/plugins/frame_aware_plugin/src/network_latency_controller.cpp:97-143 | over any run, a caller is pending exactly when its last event is a LOW request, and expires 60 s after it |
| NetworkLatency.SwitchFollowsRequests | ressched/plugins/frame_aware_plugin/src/network_latency_controller.cpp:145-169 | On and Off alternate, and the switch is on exactly while a request is pending |
| NetworkLatency.OffAMinuteAfterLastLow | ressched/plugins/frame_aware_plugin/src/network_latency_controller.cpp:117-125 | while timers fire on time, the switch is off once every LOW request is more than 60 s old |
| NetworkLatency.NetworkLatencyController.HandleRequest | ressched/plugins/frame_aware_plugin/src/network_latency_controller.cpp:77-95 | the step of the value given; nothing before initialisation or for other values |
| NetworkLatency.NetworkLatencyController.HandleAddRequest | ressched/plugins/frame_aware_plugin/src/network_latency_controller.cpp:97-125 | the caller is pending with one live timer, its own; an older one is cancelled |
| NetworkLatency.NetworkLatencyController.HandleDelRequest | ressched/plugins/frame_aware_plugin/src/network_latency_controller.cpp:127-143 | the caller and its timer are gone |
| NetworkLatency.NetworkLatencyController.AutoDisableTask | ressched/plugins/frame_aware_plugin/src/network_latency_controller.cpp:171-175 | the timer drops its own caller; its handle stays in the map and harms no later request |
| NetworkLatency.NetworkLatencyController.AddRequest | ressched/plugins/frame_aware_plugin/src/network_latency_controller.cpp:145-156 | switched on exactly by the first request |
| NetworkLatency.NetworkLatencyController.DelRequest | ressched/plugins/frame_aware_plugin/src/network_latency_controller.cpp:158-169 | switched off exactly by the last request to go |
| AppStartup.FlagMeansContinuous | ressched/sched_controller/observer/src/app_startup_scene_rec.cpp:62-121 | after a startup the flag is up exactly when the current burst has at least five startups of at least four uids |
| AppStartup.FlagMeansSuccession | ressched/sched_controller/observer/src/app_startup_scene_rec.cpp:62-121 | after any legal run the flag is up exactly when the last event is a startup and, from some startup on, there are at least five, of at least four uids, with under 15000000 us between neighbours |
| AppStartup.BurstIsLongestCloseSuffix | ressched/sched_controller/observer/src/app_startup_scene_rec.cpp:74-78 | the burst is the longest suffix of the history with all gaps under 15 s |
| AppStartup.RecordedIsEnough | ressched/sched_controller/observer/src/app_startup_scene_rec.cpp:103-114 | recording nothing more once recognised loses no recognition and makes none up |
| AppStartup.TimersDoNotMatter | ressched/sched_controller/observer/src/app_startup_scene_rec.cpp:62-102 | the state after a startup depends on the startups alone, whether or not the exit timers ran in between |
| AppStartup.SceneReportsAlternate | ressched/sched_controller/observer/src/app_startup_scene_rec.cpp:79-101 | START and STOP alternate and the flag is the last of them |
| AppStartup.AppStartupSceneRec.RecordIsContinuousStartup | ressched/sched_controller/observer/src/app_startup_scene_rec.cpp:62-88 | the specified step |
| AppStartup.AppStartupSceneRec.CleanRecordSceneData | ressched/sched_controller/observer/src/app_startup_scene_rec.cpp:89-102 | everything recorded is cleared, with a STOP report if the flag was up |
| AppStartup.AppStartupSceneRec.UpdateAppStartupNum | ressched/sched_controller/observer/src/app_startup_scene_rec.cpp:103-114 | time and count always, package and uid only while the flag is down |
| OobeManager.TasksRunInOrderOnce | ressched/common/src/oobe_manager.cpp:180-225 | tasks run followed by tasks waiting are the tasks submitted, in order; none waits once agreement is known |
| OobeManager.ValueIsLastReading | ressched/common/src/oobe_manager.cpp:207-225 | over every run the value is true, false or unknown as the last successful reading was non-zero, zero or has not come; change notices always read, chains only while nothing is known and their count is below 150 |
| OobeManager.TasksRunExactlyWhenAgreed | ressched/common/src/oobe_manager.cpp:180-225 | over every run, while the last reading agrees every task submitted so far has run; otherwise the last event ran none |
| OobeManager.RetriedExactlyOnInvalidOperation | ressched/common/src/oobe_manager.cpp:104-125 | a check is followed by another of its chain, with a count one higher, exactly when it read the setting and failed with an invalid operation; no other chain is touched |
| OobeManager.NothingRunsUnagreed | ressched/common/src/oobe_manager.cpp:180-225 | no task runs before some reading says agreed |
| OobeManager.ChainsGiveUp | ressched/common/src/oobe_manager.cpp:104-125 | no retry chain reads the setting more than 150 times |
| OobeManager.FailingChain | ressched/common/src/oobe_manager.cpp:104-125 | n failing checks of a fresh chain make min(n, 150) reads, and the chain ends with the check after that |
| OobeManager.OOBEManager.SubmitTask | ressched/common/src/oobe_manager.cpp:180-193 | run at once if agreed, else queued last; null is refused |
| OobeManager.OOBEManager.FlushOobeValue | ressched/common/src/oobe_manager.cpp:207-225 | an agreed reading runs the whole queue in order and empties it; a failed one changes nothing |
| OobeManager.OOBEManager.CheckOobeValue | ressched/common/src/oobe_manager.cpp:104-125 | reads only while the value is unknown and tries are left; only an invalid-operation failure schedules another check |
| BatteryLimit.LatestEventDecides | ressched/plugins/socperf_plugin/src/socperf_plugin.cpp:1667-1748 | after any run the threshold in force is that of the latest event alone, and with no threshold of -1 the last boost call is on exactly under a limit |
| BatteryLimit.LimitFollowsTheEvent | ressched/plugins/socperf_plugin/src/socperf_plugin.cpp:1667-1709 | after any run that ends with an event: no limit for charge state 1 or 3 or a value above the largest threshold, else, for a value in 32-bit range, the least threshold not below it |
| BatteryLimit.RequestsFollowTheLimit | ressched/plugins/socperf_plugin/src/socperf_plugin.cpp:1717-1748 | over every run without a threshold of -1, one boost call and one request go out exactly when the threshold in force changes: its own frequencies on entering it, 2147483647 for each of its tags on leaving for none |
| BatteryLimit.BoostsFollowLimitsExactly | ressched/plugins/socperf_plugin/src/socperf_plugin.cpp:1717-1748 | over all runs the last boost call is on exactly under a limit, if and only if -1 is not configured or is the only threshold |
| BatteryLimit.TargetIsLeastThreshold | ressched/plugins/socperf_plugin/src/socperf_plugin.cpp:1690-1709 | for a discharging event up to the maximum it is the least threshold not below the value, exactly unless the value wraps past a lower threshold |
| BatteryLimit.WrappedValuePicksTheWrongThreshold | ressched/plugins/socperf_plugin/src/socperf_plugin.cpp:1690-1698 | an event below 32-bit range that gets the wrong threshold |
| BatteryLimit.RecoveryLiftsAllExactlyWithSameTags | ressched/plugins/socperf_plugin/src/socperf_plugin.cpp:1717-1748 | for every configuration, recovery lifts every limit over all runs exactly when each tag some threshold limits is named by all and a threshold of -1 limits none, or -1 is the only threshold |
| BatteryLimit.LimitingMarkHappens | ressched/plugins/socperf_plugin/src/socperf_plugin.cpp:1717-1731 | the failing input for -1: it and 20 limit the same tag, and from 20 the event -1 leaves that tag limited with no limit in force |
| BatteryLimit.LimitedByThreshold | ressched/plugins/socperf_plugin/src/socperf_plugin.cpp:1717-1748 | a tag still limited was limited by some threshold; with the same tags everywhere and no tag limited by a threshold of -1, a limit is in force |
| BatteryLimit.LeakingRun | ressched/plugins/socperf_plugin/src/socperf_plugin.cpp:1733-1748 | with a threshold other than -1 limiting a tag that another one does not name, some run recovers and leaves it limited |
| BatteryLimit.BatteryLimiter.HandleBatterySubValue | ressched/plugins/socperf_plugin/src/socperf_plugin.cpp:216-230 | tag and frequency join their threshold, whatever its capacity; the maximum is -1 or the largest threshold |
| BatteryLimit.BatteryLimiter.HandleBatteryStatusChange | ressched/plugins/socperf_plugin/src/socperf_plugin.cpp:1667-1688 | the specified step, or nothing without a configuration or a charge state |
| BatteryLimit.BatteryLimiter.HandleFreqLimit | ressched/plugins/socperf_plugin/src/socperf_plugin.cpp:1690-1698 | recovery when charging or above the maximum, else the limit for the value as 32 bits hold it |
| BatteryLimit.BatteryLimiter.GetLimitCapacity | ressched/plugins/socperf_plugin/src/socperf_plugin.cpp:1700-1709 | the first threshold met going up from the capacity |
| BatteryLimit.BatteryLimiter.HandleRecoverBatteryLimit | ressched/plugins/socperf_plugin/src/socperf_plugin.cpp:1717-1731 | the threshold's own tags are lifted, if there is one in force |
| BatteryLimit.BatteryLimiter.HandleBatteryLimit | ressched/plugins/socperf_plugin/src/socperf_plugin.cpp:1733-1748 | requests go out only when the threshold changes |
| FocusGames.AgreementBreaksExactlyOnDisturbance | ressched/plugins/socperf_plugin/src/socperf_plugin.cpp:642-707 | from agreement with the full recomputation, an event loses it exactly when it retypes a focused app while all the others are games: a game uninstalled, a cold start on the other side, or a game's type given at last, but not by focusing the only focused app again |
| FocusGames.FlagIsRecomputation | ressched/plugins/socperf_plugin/src/socperf_plugin.cpp:642-707 | over every run without such events the flag is up exactly when some app is focused and all focused apps are games |
| FocusGames.FocusAndTypesFollowEvents | ressched/plugins/socperf_plugin/src/socperf_plugin.cpp:594-707 | over every run, an app is in focus when the last focus event about it says so, and its type is that of its last cold start since its last uninstall, or else the first one given for it since then |
| FocusGames.FlagMeansGames | ressched/plugins/socperf_plugin/src/socperf_plugin.cpp:642-707 | so over every run without such events the flag is up exactly when, by the events, some app is in focus and all such have type 2 |
| FocusGames.FocusLossHeals | ressched/plugins/socperf_plugin/src/socperf_plugin.cpp:649-654 | after any run that ends with a loss of focus the flag is right |
| FocusGames.DisturbanceHappens | ressched/plugins/socperf_plugin/src/socperf_plugin.cpp:846-867 | a run after which it is not |
| FocusGames.FocusTracker.UpdateFocusAppType | ressched/plugins/socperf_plugin/src/socperf_plugin.cpp:642-680 | the specified step of focus gained or lost |
| FocusGames.FocusTracker.IsFocusAppsAllGame | ressched/plugins/socperf_plugin/src/socperf_plugin.cpp:682-699 | the loop answers whether some app is focused and all focused apps are games |
| FocusGames.FocusTracker.NoteColdStart | ressched/plugins/socperf_plugin/src/socperf_plugin.cpp:594-604 | a proper type replaces what was known of the uid |
| FocusGames.FocusTracker.NoteExtension | ressched/plugins/socperf_plugin/src/socperf_plugin.cpp:1120-1140 | only a uid without a type gets one |
| FocusGames.FocusTracker.HandleUninstallEvent | ressched/plugins/socperf_plugin/src/socperf_plugin.cpp:846-867 | the uid's type is forgotten, its focus is not |
| ScreenRequests.RequestsStayExclusive | ressched/plugins/socperf_plugin/src/socperf_plugin.cpp:1142-1258 | over any run, at no moment are both requests of a pair on; no performance request is on outside performance mode; inside it one is, as long as only the two proper statuses are reported |
| ScreenRequests.StateIsWhatWasReported | ressched/plugins/socperf_plugin/src/socperf_plugin.cpp:1198-1227 | over any run the status is the last one reported, and the mode the last one in range, 600 to 603 |
| ScreenRequests.ScreenIsShown | ressched/plugins/socperf_plugin/src/socperf_plugin.cpp:1142-1258 | over any run, a wake-up turns the screen-on request on and the screen-off one off; a time-out or a late task does the reverse if status 0 was last reported, and else sends nothing; in mode 602 the performance pair follows |
| ScreenRequests.ModeIsShown | ressched/plugins/socperf_plugin/src/socperf_plugin.cpp:1850-1892 | over any run, a change of mode turns the performance pair as the status says for 602, and for another in range turns both of it off and the plain pair as the status says; no other kind of event sends anything |
| ScreenRequests.SwitchIsSafe | ressched/plugins/socperf_plugin/src/socperf_plugin.cpp:1142-1152 | turning one of a pair off before the other on keeps the pair exclusive at every moment |
| ScreenRequests.ScreenHandler.HandleScreenOn | ressched/plugins/socperf_plugin/src/socperf_plugin.cpp:1142-1152 | the requests sent, in order |
| ScreenRequests.ScreenHandler.HandleScreenOff | ressched/plugins/socperf_plugin/src/socperf_plugin.cpp:1173-1187 | the requests sent, in order, if the screen is off when it runs |
| ScreenRequests.ScreenHandler.HandleScreenStatusAnalysis | ressched/plugins/socperf_plugin/src/socperf_plugin.cpp:1198-1227 | the status is noted; only going off submits a task, and nothing is sent |
| ScreenRequests.ScreenHandler.RunScreenOffTask | ressched/plugins/socperf_plugin/src/socperf_plugin.cpp:1213-1223 | a delayed task, whenever it runs, acts on the status at that time |
| ScreenRequests.ScreenHandler.HandleDisplayPowerWakeUp | ressched/plugins/socperf_plugin/src/socperf_plugin.cpp:1229-1258 | the specified step of a wake-up started or timed out |
| ScreenRequests.ScreenHandler.HandlePerformanceModeChange | ressched/plugins/socperf_plugin/src/socperf_plugin.cpp:1850-1892 | the specified step; modes out of range are refused |
| SignatureValidator.ChecksAreUncached | ressched/common/src/res_sched_signature_validator.cpp:172-205 | after any run in which owners and signatures change only with install notices of their bundles, user switches included, a check of a uid answers as it would without the caches; a check by name does exactly when no other uid is remembered for the name, or one its configuration does not tell apart from the name's uid now |
| SignatureValidator.ChecksAnswerRight | ressched/common/src/res_sched_signature_validator.cpp:172-205 | over such runs, a check of a uid's bundle answers CHECK_OK exactly when the bundle is configured, the uid has a signature and the two are equal; no match when both exist and differ; internal error when only the signature is missing; no configuration when the bundle has none |
| SignatureValidator.NameChecksAnswerRight | ressched/common/src/res_sched_signature_validator.cpp:49-90 | over such runs without user switches, a check by name gives that answer for the first uid that is not negative among the active users, an internal error if there is none, and refuses exactly the empty name |
| SignatureValidator.ConfigIsWhatWasAdded | ressched/common/src/res_sched_signature_validator.cpp:215-222 | over any run, a bundle is configured with what was last added for it |
| SignatureValidator.CheckLeavesVerdict | ressched/common/src/res_sched_signature_validator.cpp:134-170 | from any state, a check of a configured bundle for a uid with a signature leaves a verdict for that uid, and the others' go only when the cache is full with 200 besides |
| SignatureValidator.ChecksAnswerAboutTheirWorld | ressched/common/src/res_sched_signature_validator.cpp:172-205 | after any run at all, a check answers as a direct one in the world in which its verdict was found |
| SignatureValidator.CheckIsRightExactly | ressched/common/src/res_sched_signature_validator.cpp:172-205 | after any run at all, a check agrees with the direct one exactly when it is not cached, or the uid still has a signature and that matches the configuration if and only if the one found then did; so always when the signature is the one found then |
| SignatureValidator.NameCheckIsRightExactly | ressched/common/src/res_sched_signature_validator.cpp:49-90 | after any run at all, the exact condition for a check by name, which goes to the remembered uid |
| SignatureValidator.NameChecksAreUncachedWithoutSwitches | ressched/common/src/res_sched_signature_validator.cpp:49-90 | while the active users' uids stay but for install notices, checks by name also answer as without the caches |
| SignatureValidator.ChangeIsHarmlessExactly | ressched/common/src/res_sched_signature_validator.cpp:134-151 | a change nobody is told of leaves all checks right exactly when each cached uid still has a signature and it matches the configuration exactly if the old one did |
| SignatureValidator.RunIsSound | ressched/common/src/res_sched_signature_validator.cpp:42-222 | over such runs, user switches included, every cached verdict is what a fresh look would find, and every remembered uid still the bundle's own |
| SignatureValidator.CacheIsBounded | ressched/common/src/res_sched_signature_validator.cpp:163-170 | never more than 200 cached verdicts, over any run |
| SignatureValidator.SilentChangeIsMissed | ressched/common/src/res_sched_signature_validator.cpp:134-151 | the failing run: configure, check, change the signature unannounced; the next check still answers as before |
| SignatureValidator.SwitchIsMissed | ressched/common/src/res_sched_signature_validator.cpp:64-79 | the failing run: configure, check by name, switch users; the next check by name still answers for the first user, with every owner and signature unchanged |
| SignatureValidator.SignatureValidator.OnAppInstallChanged | ressched/common/src/res_sched_signature_validator.cpp:42-47 | the bundle's uid and verdict are forgotten |
| SignatureValidator.SignatureValidator.CheckSignatureByBundleName | ressched/common/src/res_sched_signature_validator.cpp:49-90 | the specified answer and caches, the uid found once among the active users |
| SignatureValidator.SignatureValidator.CheckSignatureByUid | ressched/common/src/res_sched_signature_validator.cpp:92-105 | the specified answer and caches for the uid's bundle |
| SignatureValidator.SignatureValidator.CheckBundleInList | ressched/common/src/res_sched_signature_validator.cpp:107-118 | a bundle not in the list is refused unchecked |
| SignatureValidator.SignatureValidator.CheckSignatureCache | ressched/common/src/res_sched_signature_validator.cpp:134-151 | a verdict is used only for the same uid; one for another uid is dropped |
| SignatureValidator.SignatureValidator.UpdateSignatureCache | ressched/common/src/res_sched_signature_validator.cpp:163-170 | the verdict goes in for its uid; the others stay unless there were 200, and then all go |
| SignatureValidator.SignatureValidator.CheckSignature | ressched/common/src/res_sched_signature_validator.cpp:172-205 | without a bundle manager not supported; else the cached verdict for this very uid if there is one, and otherwise the answer of the configuration and the uid's signature, spelled out, which is then cached |
| SignatureValidator.SignatureValidator.AddSignatureConfig | ressched/common/src/res_sched_signature_validator.cpp:215-222 | every entry is set, and its bundle's cached verdict dropped |
| ExecutorInit.ArrivalOrderDoesNotMatter | ressched_executor/services/resschedexemgr/src/res_sched_exe_mgr.cpp:120-153 | pieces arriving in any order initialise the executor once, on the last of them, from the pieces joined in index order, with the buffer then empty |
| ExecutorInit.NthFragmentInitialises | ressched_executor/services/resschedexemgr/src/res_sched_exe_mgr.cpp:120-153 | the first fragment whose number is the count of fragments so far makes the one attempt, with the texts kept joined in index order, and empties the buffer |
| ExecutorInit.FragmentsAccumulate | ressched_executor/services/resschedexemgr/src/res_sched_exe_mgr.cpp:120-136 | until then nothing is attempted and the buffer only grows |
| ExecutorInit.FirstTextIsKept | ressched_executor/services/resschedexemgr/src/res_sched_exe_mgr.cpp:131-134 | of the fragments with one index the first is kept |
| ExecutorInit.WholeIsTriedAtOnce | ressched_executor/services/resschedexemgr/src/res_sched_exe_mgr.cpp:120-153 | after any run, a whole payload is tried at once unless the executor is initialised, and leaves waiting fragments alone |
| ExecutorInit.NothingLostExactlyWhenDistinct | ressched_executor/services/resschedexemgr/src/res_sched_exe_mgr.cpp:131-140 | the joined text is the texts of all fragments, each once, by ascending index, exactly when no index repeats; and exactly then as many texts are kept as fragments came |
| ExecutorInit.ConfiguredAtMostOnce | ressched_executor/services/resschedexemgr/src/res_sched_exe_mgr.cpp:155-182 | over any messages the plugin manager is given configurations at most once, and only once latched |
| ExecutorInit.ConfiguredByTheFirst | ressched_executor/services/resschedexemgr/src/res_sched_exe_mgr.cpp:155-182 | over any messages the executor is initialised exactly when its last attempt held a configuration, none before having held one; then the plugin manager was given its readers unless one is over 1048576 bytes, and after them its switches unless one of those is |
| ExecutorInit.InitialisedForGood | ressched_executor/services/resschedexemgr/src/res_sched_exe_mgr.cpp:120-182 | once initialised nothing changes any more |
| ExecutorInit.ResSchedExeMgr.InitPluginMgrPretreatment | ressched_executor/services/resschedexemgr/src/res_sched_exe_mgr.cpp:120-153 | the specified step of one message |
| ExecutorInit.ResSchedExeMgr.JoinMessages | ressched_executor/services/resschedexemgr/src/res_sched_exe_mgr.cpp:137-140 | the loop over the ordered fragments joins them from the smallest index up |
| ExecutorInit.ResSchedExeMgr.InitPluginMgr | ressched_executor/services/resschedexemgr/src/res_sched_exe_mgr.cpp:155-182 | the specified calls and latch |
| StorageSize.TerminatesExactlyUpTo2To31 | ressched/common/src/res_sched_system_util.cpp:71-89 | the loop leaves for exactly the sizes up to 2^31, with every assignment truncated to its type |
| StorageSize.ProductVisitsEachPower | ressched/common/src/res_sched_system_util.cpp:79-88 | pass n holds 2^n for n up to 31, and zero ever after |
| StorageSize.RowAndColumn | ressched/common/src/res_sched_system_util.cpp:79-87 | the two nested scales: value 2^r on the q-th power of 1024 |
| StorageSize.RoundStorageSize | ressched/common/src/res_sched_system_util.cpp:71-89 | the least power of two not below the size and at least 1; a negative size comes back |

## Left out

- StorageSize.RoundStorageSize: asks for a size of at most 2^31, because beyond that the source's loop is proved never to end.
- LruCache.ResschedLruCache.Put: asks for a capacity of at least 1; with 0 the source reads the back of an empty list.
- PermissionGate.PermissionChecker.IsHasPermission: asks for the same; the service's cache has a fixed positive capacity.
- AudioObserver.AudioObserver.ProcessCapturerEndCaseByUnregister: asks for equal key sets of the two maps, which every run keeps (AudioCapturer.TrackedMeansCapturing).
- AudioObserver.AudioObserver.OnRendererStateChange: batches have no null entries; the source dereferences each entry before its null check.
- ResSchedService.RequestGate.IsLimitRequest: asks for a clock reading that is not negative, as a steady clock gives; counters are unbounded integers, which the limits make exact.
- ResSchedService.RequestGate.IncreaseBigDataCount: does not model the 32-bit wrap-around of the pending count.
- CgroupAdjuster.HandleProcessCreated: the payload has been parsed, and a kind out of range taken for the normal one; extension type, preload mode and the application's own name are not modelled.
- ScreenRequests.ScreenHandler.HandleScreenOn: of the requests on these lines only those of the two screen pairs are modelled; display-mode and device-mode requests are not.
- ScreenRequests.ScreenHandler.HandleScreenOff: the same.
- BatteryLimit.BatteryLimiter.HandleBatteryStatusChange: the charge state is taken as already read into 32 bits.
- NetworkLatency.OffAMinuteAfterLastLow: assumes that timers run when due; the order in which tasks run is otherwise arbitrary.
- CgroupAdjuster.AdjustProcessGroup: the report to the arbitration extension, whose code is not shown, leaves records unchanged, and so does moving the forked children.
- OobeManager.OOBEManager.FlushOobeValue: running a task does not submit tasks in turn.
- Supervisor: ability and window records are values, so their aliasing and in-place updates are not captured; the uid map, the searches and the reload of child processes are not modelled.
- AppStartup: deinitialisation, which clears the sets but not the flag.
- ScreenRequests: the body of the wake-up time-out task, and builds without the task library.
- FocusGames: pid types, bundle names and the weak-action status.
- ExecutorInit: JSON parsing, which is a parameter.
- OobeManager: registration of observers and the data-share callbacks.
- ClientSpec.ServiceHoldsWhatIsBelievedExactly: a call through a proxy that leads to the running service is taken to arrive; the source ignores the calls' results, and other failures are not modelled.
- Client: subscription to the service manager, reports of connection errors and of discarded events.
- Thread interleavings inside guarded handlers: each handler is one step, timers and delayed tasks are separate steps.
- Logging, tracing, dump commands, event payloads and fixed permission tables.
- The forwarding observers, `event_controller.cpp`, `observer_manager.cpp`, file and procfs work: no state worth proving.
- `slide_recognizer.cpp` and `background_sensitive_task_overlapping_scene_recognizer.cpp`: the first feeds back through a manager not shown, the second leaves only easy flag alternation.
