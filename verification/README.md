# MAD scheduling kernels, verified

MAD lets many devices share map routes, logins, accounts and packages. This project models the
stateful and arithmetic kernels that decide who goes where and who may do what, and proves what
they promise, over all inputs and whole runs. The login limiter, the updater tasks and the pool
updates of a route manager are modelled by the steps between which others may act, and their
theorems hold for every interleaving of those; what is taken as one step is named under "Left out".
Where the code does not keep a promise, the code is modelled as it is and the exact condition under
which it does is proved.

| module | part of the program |
|---|---|
| EdgeCycles, PolygonTest, Geofence | the point-in-polygon test and the geofence filter |
| Sorting, SubrouteAllocation | dividing a round among workers |
| RouteSteps, RouteManager | the route manager: steps on values, and the classes that perform them in place |
| RouteRuns | the queue invariant of quest mode, and the step that finishes a subroute |
| RouteInterleavings | runs of many workers with a pool update under way |
| RouteCalls, HandOuts, PriorityEvents, RoundCounting | runs of whole calls, what a worker is sent to, priority events, the round counter |
| LoginLimiter, LoginRequest | the login limiter as a protocol, and the retry loop of one request |
| DeviceJob, UpdaterQueue, UpdaterRuns, UpdaterConflicts | the device job state machine, the tasks around its queue, each job among the others, and conflicts |
| SpawnTimes, Sightings | despawn and spawn-definition arithmetic, the sighting handlers |
| Accounts | cooldowns and the assignment of accounts to devices |
| ApkFilename, ApkStorage, ApkStorageFilesystem, Chunks | package names, the directory storage, chunking |
| Wrappers, PythonText | shared types, and how Python reads numbers |

Reals stand for floats, `dist` is an arbitrary distance function, and time is a parameter. Code
that changes objects in place is modelled by classes; each method is proved equal to a function of
the old state, and the theorems are about those functions and their runs.

What the proofs show about the code beyond what it promises:

- The polygon test gives the plain even-odd answer for every non-empty polygon; its two shortcuts
  never matter. An empty polygon raises.
- Filtering by the box of the include fences first loses nothing exactly when there is an include
  fence. Without one the box is inverted and everything is lost although the filter accepts.
- A pool update awaits a process pool and installs copies made from the round as it was when it began.
  A stop that another call pops meanwhile is never handed out again without a redo if and only if the
  copies do not queue it. A worker that joins meanwhile is lost to the pool.
- The finish step of a route manager pops from an entry the pool no longer holds. The queue invariant
  survives exactly when the worker whose slice of the new round has that stop does not still queue it
  after two updates; for a lone worker, exactly when the new round does not have it.
- The limiter keeps every window below its limit if and only if the window plus the longest time
  between reading the clock and registering stays below the 24 hours of the key expiry.
- The updater's conflict branch gives back a claim it never took. As written, one device never runs
  two jobs at once if and only if there is at most one task or no device has two jobs. Without
  restarts of unconnected devices the same condition decides whether a task can die, and a release
  guarded by ownership would need no condition for either.
- For a new job only a waiting time of its first sub-job makes a difference.
- A cached weather variant can hide a reroll: the row keeps showing the other weather's IVs.
- `calculate_cooldown` grows with the distance while the assumed speed stays the same, and drops at a
  threshold exactly when the speed rises there below the two-hour cap, as it does at 948 km.
- An account that was ever softbanned is never usable for quests and levelling when the request does
  not say where, however long ago the softban was.
- A stored package is found again after a restart if and only if its version is not empty, has no
  whitespace, has no two underscores in `"_" + version` except at the very end, and its mimetype is
  one of the two known ones. A version with a slash is not stored, and the old package is gone.

## Model

| member | source | states |
|---|---|---|
| EdgeCycles.CycleCut | mapadroid/geofence/geofenceHelper.py:174-189 | for any symmetric edge test, cutting a cycle by a chord changes the number of passing edges by the chord counted twice |
| EdgeCycles.ChangesParity | mapadroid/geofence/geofenceHelper.py:174-189 | along a path the edges that change sides are even in number exactly when both ends lie on one side |
| PolygonTest.CodeCrossesIsCrosses | mapadroid/geofence/geofenceHelper.py:179-187 | the two latitude guards of the edge test change no answer |
| PolygonTest.IntersectionBetween | mapadroid/geofence/geofenceHelper.py:181-185 | an edge meets the meridian between the latitudes of its ends |
| PolygonTest.BoxRejectionSound | mapadroid/geofence/geofenceHelper.py:159-172 | a point outside the bounding box is outside by the even-odd rule |
| PolygonTest.EdgeToggles | mapadroid/geofence/geofenceHelper.py:179-187 | the body of the edge loop toggles exactly on edges the ray crosses, and never divides by zero |
| PolygonTest.BoundingBox | mapadroid/geofence/geofenceHelper.py:159-170 | the box contains every vertex and every side of it touches one |
| PolygonTest.IsPointInPolygonCustom | mapadroid/geofence/geofenceHelper.py:157-189 | the implementation equals the plain even-odd rule on every non-empty polygon and raises on the empty one |
| PolygonTest.RotationInvariant | mapadroid/geofence/geofenceHelper.py:174-189 | starting the vertex list elsewhere changes no answer |
| PolygonTest.ReversalInvariant | mapadroid/geofence/geofenceHelper.py:174-189 | reversing the vertex list changes no answer |
| PolygonTest.ChordCut | mapadroid/geofence/geofenceHelper.py:174-189 | the answers of the two pieces along any chord xor to the answer of the whole |
| PolygonTest.VertexInsertionInvariant | mapadroid/geofence/geofenceHelper.py:174-189 | a vertex inserted anywhere on an edge changes no answer |
| PolygonTest.TriangleMeaning | mapadroid/geofence/geofenceHelper.py:157-189 | points strictly inside a triangle are accepted and points strictly outside rejected, by orientation |
| PolygonTest.FanMeaning | mapadroid/geofence/geofenceHelper.py:157-189 | the answer is the parity of the triangles of the fan that accept the point |
| PolygonTest.DegenerateRejects | mapadroid/geofence/geofenceHelper.py:157-189 | polygons of one or two vertices contain nothing |
| Geofence.GeofenceHelper.GetPolygonFromFence | mapadroid/geofence/geofenceHelper.py:35-45 | the loops compute the box of all include vertices, starting from an inverted globe |
| Geofence.GeofenceHelper.IsExcluded | mapadroid/geofence/geofenceHelper.py:129-142 | the search over the exclude fences, a raising fence included |
| Geofence.GeofenceHelper.IsCoordInsideIncludeGeofence | mapadroid/geofence/geofenceHelper.py:47-59 | the answer is `Accepts`, whose meaning AcceptsMeaning states |
| Geofence.GeofenceHelper.GetGeofencedCoordinates | mapadroid/geofence/geofenceHelper.py:62-84 | the loop is the order-preserving filter by the accept test |
| Geofence.AnyAreaMeaning | mapadroid/geofence/geofenceHelper.py:129-142 | when the search over fences is true, false, and when it raises |
| Geofence.AcceptsMeaning | mapadroid/geofence/geofenceHelper.py:47-59 | accepted exactly when in no exclude fence and, if there are include fences, in one of them |
| Geofence.AcceptsRaisesIff | mapadroid/geofence/geofenceHelper.py:47-59 | judging a point raises exactly when the search meets a fence without vertices: among the exclude fences, or, for a point in none of them, among the include fences |
| Geofence.FilteredMeaning | mapadroid/geofence/geofenceHelper.py:62-84 | the filter keeps every accepted coordinate as often as it came, in order, and no other, raises exactly when a coordinate does, and is idempotent |
| Geofence.FenceBoxMeaning | mapadroid/geofence/geofenceHelper.py:35-45 | the box has every vertex of every include fence, and each side of it touches one or is that of the inverted globe |
| Geofence.PrefilterSound | scripts/remove_all_spawns_within_geofence.py:69-112 | with an include fence, no accepted coordinate lies outside the box used as a database filter |
| Geofence.PrefilterLosslessIff | scripts/remove_all_spawns_within_geofence.py:69-112 | the prefilter loses nothing if and only if there is an include fence |
| SubrouteAllocation.AllocationExact | mapadroid/route/SubrouteReplacingMixin.py:65-83 | in join order the subroutes concatenate to the usable round, none is empty, lengths differ by at most one, longer ones first |
| SubrouteAllocation.WhoIsServed | mapadroid/route/SubrouteReplacingMixin.py:19-63 | exactly min(n, k) workers stay, the longest-joined ones, and none exactly when n or k is 0 |
| SubrouteAllocation.QueuesRestartAtClosest | mapadroid/route/SubrouteReplacingMixin.py:85-116 | each queue is the suffix of the new subroute from the first spot at minimal distance to the old head, or all of it |
| RouteManagers.FindClosestLocation | mapadroid/route/SubrouteReplacingMixin.py:103-116 | the running minimum finds the coordinate at the first index of minimal distance |
| RouteManagers.ReplaceSubroute | mapadroid/route/SubrouteReplacingMixin.py:85-101 | subroute and queue of an entry are replaced as `Refill` says, the rest of it stays |
| RouteManagers.PopulateSubroutes | mapadroid/route/SubrouteReplacingMixin.py:65-101 | popping a deque gives worker i exactly chunk i of the coordinates |
| RouteManagers.PickledCopies | mapadroid/route/SubrouteReplacingMixin.py:56-60 | the process pool returns fresh, distinct entries with equal contents |
| RouteManagers.CopyAndPopulate | mapadroid/route/SubrouteReplacingMixin.py:56-63 | the copies are repopulated and the original entries are untouched |
| RouteManagers.RetryWithoutNewest | mapadroid/route/SubrouteReplacingMixin.py:36-42 | dropping the newest worker and retrying ends where keeping the n longest-joined ones does |
| RouteManagers.WorkerChangedUpdateRoutepools | mapadroid/route/SubrouteReplacingMixin.py:19-63 | the recursive update terminates in `UpdatedPool`, in fresh entries unless updates are off |
| RouteManagers.RouteManager.BeginUpdate | mapadroid/route/RouteManagerBase.py:245-247 | reads round and entries and makes the copies that the step `Begin` puts under way, changing nothing |
| RouteManagers.RouteManager.InstallUpdate | mapadroid/route/RouteManagerBase.py:248-250 | whatever became of the manager meanwhile, the copies become the pool, as the step `Install` says |
| RouteManagers.RouteManager.UpdateRoutepool | mapadroid/route/RouteManagerBase.py:245-250 | undisturbed, replaces the pool by the updated one, or leaves it and reports failure |
| RouteManagers.RouteManager.CalculateRouteNow | mapadroid/route/RouteManagerQuests.py:48-57 | fetches stops, stops the manager when none is left, else installs the new round and redistributes it |
| RouteManagers.RouteManager.StartRoutemanager | mapadroid/route/RouteManagerBase.py:273-287 | starting calculates a route, in quest mode with the check for stops |
| RouteManagers.RouteManager.IsCoordWithinRangeOfStoplist | mapadroid/route/RouteManagerQuests.py:149-161 | a coordinate is in range exactly when it is a stop or, with clustering, closer than the radius to one |
| RouteManagers.RouteManager.CheckCoordsBeforeReturning | mapadroid/route/RouteManagerQuests.py:134-141 | good exactly when the coordinate is still to be visited |
| RouteManagers.RouteManager.CheckCoordAndRemove | mapadroid/route/RouteManagerBase.py:535-554 | a good coordinate leaves the round with all its repetitions, a bad one changes nothing |
| RouteManagers.RouteManager.WorkerRoundsRunThrough | mapadroid/route/RouteManagerBase.py:556-561 | the median of the rounds of all workers |
| RouteManagers.RouteManager.FindCloserWorker | mapadroid/route/RouteManagerBase.py:563-592 | the search finds the closest eligible worker among those strictly closer than the caller |
| RouteManagers.RouteManager.OtherWorkerCloserToPrioq | mapadroid/route/RouteManagerBase.py:563-600 | the event goes into the slot of that worker and nothing else changes |
| RouteManagers.RouteManager.PopPrioEvents | mapadroid/route/RouteManagerBase.py:433-458 | the loop over popped events is `ServePrio` |
| RouteManagers.RouteManager.PopUntilGood | mapadroid/route/RouteManagerBase.py:518-533 | pops from the front to the first coordinate to be visited, which leaves the round; what stands after it stays in the queue |
| RouteManagers.RouteManager.FinishSubroute | mapadroid/route/RouteManagerBase.py:480-533 | the branch for a finished subroute, popping from the entry left behind |
| RouteManagers.RouteManager.GetNextLocation | mapadroid/route/RouteManagerBase.py:365-533 | the whole call changes the route manager as `Next` says and returns its result |
| RouteManagers.RouteManager.JoinAndContinue | mapadroid/route/RouteManagerBase.py:386-399 | a joining worker is served from the copied entry fetched anew |
| RouteManagers.RouteManager.UnregisterWorker | mapadroid/route/RouteManagerBase.py:183-196 | the worker leaves, the pool is updated, and an idle manager stops |
| RouteManagers.RouteManager.RedoStopAtEnd | mapadroid/route/RouteManagerBase.py:676-681 | the stop goes to the end of the worker's queue and of the round |
| RouteSteps.BestOtherMeaning | mapadroid/route/RouteManagerBase.py:575-592 | the running search yields a strictly closer eligible worker that no eligible one beats, and none only if nobody is strictly closer |
| HandOuts.QueueServedInOrder | mapadroid/route/RouteManagerBase.py:365-533 | in every mode: a worker with something queued and no priority event to serve is sent to the first coordinate of its queue to be visited, keeps what comes after it and stands there, or gets nothing exactly when none is to be visited; other queues stay |
| HandOuts.WalksThroughQueue | mapadroid/route/RouteManagerBase.py:518-533 | undisturbed calls return what is to be visited of the queue, in its order |
| HandOuts.RedoneComesLast | mapadroid/route/RouteManagerBase.py:676-681 | a stop redone is returned after everything else queued, and then it is |
| HandOuts.RedoneLastInRound | mapadroid/route/RouteManagerBase.py:676-681 | and comes last of the usable round |
| HandOuts.PendingEventServed | mapadroid/route/RouteManagerBase.py:400-406 | a worker goes to the event in its slot first, which empties the slot and nothing else |
| HandOuts.KeptEventServed | mapadroid/route/RouteManagerBase.py:411-458 | a worker goes to the due event it keeps and its queue waits |
| HandOuts.EventsServedInOrder | mapadroid/route/RouteManagerBase.py:425-458 | due events are gone through in order up to the first one kept; those before it that are to be visited are passed on in order, those after it are left |
| HandOuts.FirstEventKept | mapadroid/route/RouteManagerBase.py:433-458 | where events are not passed on the first one due is kept |
| HandOuts.EventsOnly | mapadroid/route/RouteManagerBase.py:411-465 | without a normal route a worker goes to events only: it goes on waiting exactly when it may look and none is due |
| HandOuts.SubrouteStartsOver | mapadroid/route/RouteManagerBase.py:476-533 | outside quest mode a worker that has walked through its subroute starts over at its first coordinate |
| RouteRuns.UpdateEstablishes | mapadroid/route/SubrouteReplacingMixin.py:19-63 | distributing a round without repetitions establishes the queue invariant from any queues |
| RouteRuns.CoordsToUseInOrder | mapadroid/route/SubrouteReplacingMixin.py:30-31 | of two pieces of a round what is to be used is that of the one followed by that of the other, ignored coordinates dropped and nothing else |
| RouteRuns.NextKeepsInv | mapadroid/route/RouteManagerBase.py:365-533 | an undisturbed call that does not finish a subroute keeps the invariant and hands out nothing handed out before |
| RouteRuns.UnregisterKeepsInv | mapadroid/route/RouteManagerBase.py:183-196 | a worker leaving undisturbed keeps the invariant |
| RouteRuns.RedoKeepsInvIff | mapadroid/route/RouteManagerBase.py:676-681 | a redo keeps the invariant if and only if the stop has left the round |
| RouteRuns.FinishYields | mapadroid/route/RouteManagerBase.py:480-533 | the stop the finish step returns is known before the call: the first, by position, of the old subroute still to be visited; a worker that still has an entry gets nothing exactly when there is none |
| RouteRuns.FinishKeepsInvIff | mapadroid/route/RouteManagerBase.py:480-510 | for any pool the finish step keeps the invariant if and only if the worker whose slice of the new round has that stop does not still queue it after two updates of its old queue |
| RouteRuns.LoneFinishKeepsInvIff | mapadroid/route/RouteManagerBase.py:480-510 | for a lone worker with an empty queue, if and only if the stop to be returned is not in the new round |
| RouteRuns.FinishRepeats | mapadroid/route/RouteManagerBase.py:480-510 | a stop without a quest is handed out by the finishing call and again by the next one |
| RouteRuns.RefreshedFinishKeepsInv | mapadroid/route/RouteManagerBase.py:399 | not what the finish step does: had it fetched its entry anew as a join does, the invariant would hold after it for any pool |
| RouteInterleavings.UpdateUndisturbed | mapadroid/route/RouteManagerBase.py:245-250 | beginning and installing with nothing in between is the update in one step |
| RouteInterleavings.JoinUndisturbed | mapadroid/route/RouteManagerBase.py:386-399 | a join, an update and a pop with nothing in between are the call of a new worker |
| RouteInterleavings.LeaveUndisturbed | mapadroid/route/RouteManagerBase.py:183-196 | a removal, an update and the check for idleness with nothing in between are the unregistering of a worker |
| RouteInterleavings.GetKeepsCurrentIff | mapadroid/route/RouteManagerBase.py:518-554 | a pop leaves the copies under way current if and only if it does not hand out a coordinate they queue |
| RouteInterleavings.InstallSoundIff | mapadroid/route/SubrouteReplacingMixin.py:55-63 | installing copies keeps the invariant if and only if what they queue is still in the round |
| RouteInterleavings.PoppedOnceIff | mapadroid/route/SubrouteReplacingMixin.py:30-63 | whatever follows between two route calculations, a coordinate handed out is never handed out again without a redo, if and only if no copies under way queue it |
| RouteInterleavings.UpdateDisturbedIff | mapadroid/route/SubrouteReplacingMixin.py:30-63 | for all that may run between begin and install: the invariant holds afterwards if and only if every coordinate that the copies queue and that was handed out meanwhile was redone meanwhile |
| RouteInterleavings.RunKeepsInv | mapadroid/route/RouteManagerBase.py:518-554 | in quest mode, over every run of joins, updates begun and installed, removals, pops, ignores and redos in which no pop hands out what copies under way queue, queues are disjoint, within the round, and hold nothing handed out |
| RouteInterleavings.HandedOutOnce | mapadroid/route/RouteManagerBase.py:518-554 | in such runs two calls that return the same coordinate have a redo of it between them |
| RouteInterleavings.JoinDuringUpdateLost | mapadroid/route/RouteManagerBase.py:386-399 | a worker that joins while copies are made has no entry once they are installed, nor after its own update |
| RouteInterleavings.PopDuringUpdateRepeats | mapadroid/route/SubrouteReplacingMixin.py:55-63 | a lone worker's stop popped during an update is handed out again after it, step by step |
| RouteCalls.RegisterThenLeave | mapadroid/route/RouteManagerBase.py:173-196 | registering a worker and unregistering it before its first call changes nothing, exactly unless it was the only user of a started manager |
| RouteCalls.UnregisteredIsGone | mapadroid/route/RouteManagerBase.py:183-196 | an unregistered worker has no entry and is not served; the others keep theirs while there are coordinates enough, and the manager stops exactly when nobody is left |
| RouteCalls.FirstCallStarts | mapadroid/route/RouteManagerBase.py:372-377 | the first call starts the manager; in quest mode it fails exactly when every stop is to be ignored, and then nothing is started |
| RouteCalls.NewcomersEntry | mapadroid/route/RouteManagerBase.py:386-399 | a new worker starts with no rounds at its registered start position with its whole share queued, which is empty exactly where pools are not divided |
| RouteCalls.IgnoredNeverReturned | mapadroid/route/RouteManagerBase.py:268-271 | in quest mode a coordinate once ignored is never handed out again, in no run of calls with route calculations, restarts and redos |
| PriorityEvents.PrioEventsConserved | mapadroid/route/RouteManagerBase.py:433-458 | every popped event is rejected, put into one empty slot of a rightful taker, or kept; no pending slot changes |
| PriorityEvents.HandoversRightful | mapadroid/route/RouteManagerBase.py:563-600 | every taker is strictly closer than the caller and closest among the workers whose slots are still empty |
| PriorityEvents.KeptOnlyWhenClosest | mapadroid/route/RouteManagerBase.py:563-600 | an event is only kept when no worker with an empty slot is strictly closer |
| RoundCounting.MedianReached | mapadroid/route/RouteManagerBase.py:556-561 | at least half of the workers have reached the median, so some worker has |
| RoundCounting.MedianMeaning | mapadroid/route/RouteManagerBase.py:556-561 | the median lies halfway between the two values in the middle: no more than half of the data lie beyond either |
| RoundCounting.AdvanceReached | mapadroid/route/RouteManagerBase.py:468-473 | the counter never falls or stays below the median, moves only to the median, and when it advances at least half of the pool has reached it |
| RoundCounting.FinishCountsRound | mapadroid/route/RouteManagerBase.py:480-533 | a finished subroute counts one round for its worker and none for any other, and the worker stands where it is sent |
| RoundCounting.RoundcountOverRuns | mapadroid/route/RouteManagerBase.py:468-473 | over any run the counter never decreases and never exceeds the most rounds a worker reached |
| LoginLimiter.StepKeepsInv | mapadroid/mapping_manager/MappingManager.py:401-442 | every step of every process keeps the invariant of the shared set |
| LoginLimiter.SlidingWindowSafe | mapadroid/mapping_manager/MappingManager.py:401-442 | over every interleaving each window holds at most the limit of granted logins while window and staleness stay below the expiry |
| LoginLimiter.LateRunViolates | mapadroid/mapping_manager/MappingManager.py:409-434 | a run that grants too many once the condition fails |
| LoginLimiter.SafeIffBelowExpiry | mapadroid/mapping_manager/MappingManager.py:401-442 | the bound holds over all runs if and only if window plus staleness is below 24 hours |
| LoginLimiter.UndisturbedDecision | mapadroid/mapping_manager/MappingManager.py:413-438 | an undisturbed request is granted if and only if fewer logins than allowed lie in the window before its clock reading, and only a granted one changes the set |
| LoginLimiter.DecidedByLastCount | mapadroid/mapping_manager/MappingManager.py:413-438 | over every run a request granted counted fewer than allowed in its window when it last counted, and one denied counted as many or more, or its count failed |
| LoginLimiter.ClockReadOnce | mapadroid/mapping_manager/MappingManager.py:409 | the window of a request ends, through all retries, at the time it came in |
| LoginRequest.LoginStore.Attempt | mapadroid/mapping_manager/MappingManager.py:413-442 | one turn of the retry loop under any interference is a run of the protocol that ends in a decision by what it counted, or in waiting again |
| LoginRequest.PromptIsFresh | mapadroid/mapping_manager/MappingManager.py:409-434 | a run that takes no longer than the staleness after any clock reading registers no login later than that |
| LoginRequest.LoginStore.HandleLoginRequest | mapadroid/mapping_manager/MappingManager.py:401-442 | the whole request under any interference is a run of the protocol, with the clock read once, decided by what it counted last, and keeps every window within the limit when it is prompt |
| DeviceJob.RestartStartsOver | mapadroid/updater/updater.py:132-144 | whatever became of a job, after a restart it makes the tries of a newly added one from the first sub-job on, with at most a date still to come kept |
| DeviceJob.GlobalJobLogEntry.HandleJob | mapadroid/updater/updater.py:159-299 | the field-by-field handling is `Handle` for every status, clock and outcome |
| DeviceJob.HandleDecreases | mapadroid/updater/updater.py:159-299 | a handling that neither waits nor finishes lexicographically lowers sub-jobs left and tries left |
| DeviceJob.SpentJobFinishes | mapadroid/updater/updater.py:168-209 | with the effort used up the next handling finishes the job |
| DeviceJob.HandlingsBounded | mapadroid/updater/updater.py:159-299 | a fresh job of n sub-jobs is handled effectively at most 3n + 1 times |
| DeviceJob.TriesBounded | mapadroid/updater/updater.py:186-209 | the first sub-job is tried at most four times, every later one at most three times |
| DeviceJob.SuccessesInOrder | mapadroid/updater/updater.py:267-293 | the successes are exactly the sub-jobs up to the index, once each and in order |
| DeviceJob.LaterWaitTimesIgnored | mapadroid/updater/updater.py:211-232 | once a job has a processing date the waiting times of its sub-jobs change nothing |
| DeviceJob.OnlyFirstWaitTimeCounts | mapadroid/updater/updater.py:211-248 | for a new job only a waiting time of the first sub-job makes a difference |
| DeviceJob.WaitsForDate | mapadroid/updater/updater.py:236-241 | a job with a date is not tried before it, and is shown as due in the future meanwhile |
| DeviceJob.WaitingTimeKept | mapadroid/updater/updater.py:226-241 | a waiting time of the first sub-job is waited for in full: no try before it is over, counted from the first handling, and the first handling after it goes ahead |
| DeviceJob.NoWaitingTimeNoWait | mapadroid/updater/updater.py:211-248 | without a waiting time the first handling goes ahead |
| DeviceJob.UnconnectedWaitsMinute | mapadroid/updater/updater.py:250-263 | after a handling that found no connection nothing is tried for a minute, and the first handling after it goes ahead |
| DeviceJob.RestartedWaits | mapadroid/updater/updater.py:195-204 | a job is restarted exactly when it is found unconnected with all tries used up and restarts are configured, and then it starts over after the configured minutes, not before |
| DeviceJob.FailingJobEnds | mapadroid/updater/updater.py:186-209 | a sub-job that keeps failing is tried until four tries are counted, and then the job has failed, or is left interrupted if the last try raised |
| DeviceJob.SucceedingJobEnds | mapadroid/updater/updater.py:267-275 | a job whose sub-jobs all succeed is done after one handling each |
| DeviceJob.GivenUpForGood | mapadroid/updater/updater.py:175-185 | a cancelled or failed job is never tried again |
| UpdaterQueue.NoJobLost | mapadroid/updater/updater.py:304-352 | in every interleaving each unfinished job is queued once or held by one task, conflicts and restarts included |
| UpdaterQueue.InitConserved | mapadroid/updater/updater.py:304-316 | the empty updater satisfies that invariant |
| UpdaterRuns.HandledAsIfAlone | mapadroid/updater/updater.py:304-352 | in every interleaving, conflicts included, a job becomes what its own handlings make of it as if nothing else went on, and is finished exactly when they bring it to its end |
| UpdaterRuns.EveryJobBounded | mapadroid/updater/updater.py:304-352 | so in every interleaving no sub-job of a new job is tried more than four times, and the successes are the sub-jobs in order |
| UpdaterRuns.FirstComeFirstServed | mapadroid/updater/updater.py:304-327 | jobs are taken in the order in which they were queued, whatever the tasks do |
| UpdaterRuns.ClaimLostIff | mapadroid/updater/updater.py:323-350 | a job loses its device if and only if a task pops the claim in its `finally` block: not by being requeued, nor to another job |
| UpdaterConflicts.ConflictRunsBoth | mapadroid/updater/updater.py:323-345 | as written, any two jobs of one device can be made to run there at once, with any two tasks |
| UpdaterQueue.OwnedReleaseExclusive | mapadroid/updater/updater.py:323-345 | not the code: with an ownership-guarded release, and no restarts, one device never runs two jobs |
| UpdaterQueue.OwnedReleaseKeepsTasks | mapadroid/updater/updater.py:337-345 | not the code: nor does a task die then |
| UpdaterConflicts.LiteralExclusiveIff | mapadroid/updater/updater.py:323-345 | as written, over all runs that add jobs of a catalogue, with or without restarts, one device never runs two jobs at once if and only if there is at most one task or no device has two jobs |
| UpdaterConflicts.ExclusiveIff | mapadroid/updater/updater.py:323-345 | over the runs without restarts, if and only if the release is guarded, or there is at most one task, or no device has two jobs |
| UpdaterConflicts.TasksSurviveIff | mapadroid/updater/updater.py:337-345 | over the runs without restarts no task ever dies of a missing claim, under exactly the same condition |
| SpawnTimes.MinSecRoundTrip | mapadroid/db/DbPogoProtoSubmit.py:570-573 | formatting a time as MM:SS and parsing it gives minute and second back |
| SpawnTimes.DespawnInRange | mapadroid/utils/gamemechanicutil.py:30-46 | the decoded time has the recorded minute and second and lies strictly between a minute before and an hour after the scan |
| SpawnTimes.UnknownDespawnInRange | mapadroid/utils/gamemechanicutil.py:30-46 | without a recorded end the default duration from now on is used, cut to the minute |
| SpawnTimes.DespawnExactIff | mapadroid/utils/gamemechanicutil.py:39-46 | a later end is decoded exactly if and only if it falls into the hour of the scan, or into the next one at an earlier minute |
| SpawnTimes.DespawnRoundTrip | mapadroid/utils/gamemechanicutil.py:30-46 | an end formatted as MM:SS is decoded to its second at every scan up to 3540 seconds before it, in any later hour |
| SpawnTimes.RoundTripBoundTight | mapadroid/utils/gamemechanicutil.py:39-46 | one second earlier the decoding is off by an hour |
| SpawnTimes.SetSpawnSeeMinutesgroup | mapadroid/db/DbPogoProtoSubmit.py:1295-1309 | clears the unseen bit and sets the seen bit of the quarter in the byte |
| SpawnTimes.SpawndefIsMask | mapadroid/db/DbPogoProtoSubmit.py:1281-1309 | after any observations from the default on the definition is 240 less 15 times the mask of the quarters seen |
| SpawnTimes.SpawndefOrderFree | mapadroid/db/DbPogoProtoSubmit.py:1281-1309 | observations may repeat and come in any order |
| SpawnTimes.TrsSpawn.Sight | mapadroid/db/DbPogoProtoSubmit.py:561-607 | a sighting updates the row of a known spawnpoint as `Record` says |
| SpawnTimes.RecordedSpawndef | mapadroid/db/DbPogoProtoSubmit.py:561-607 | over any sightings under changing events the stored definition is the mask of the quarters of exactly those whose event goes with the first one |
| SpawnTimes.QuartersShown | mapadroid/db/DbPogoProtoSubmit.py:1281-1309 | bit by bit: a quarter is shown as seen exactly if some sighting under a fitting event came in its fifteen minutes, and as unseen exactly if none did |
| SpawnTimes.RecordedTimer | mapadroid/db/DbPogoProtoSubmit.py:570-607 | the earliest remaining time is the least one seen, and an end is stored exactly when some sighting had a timer |
| SpawnTimes.RecordDecodes | mapadroid/db/DbPogoProtoSubmit.py:570-593 | what a sighting stores is decoded to its despawn time, to the second |
| Sightings.ProtoSubmit.Mons | mapadroid/db/DbPogoProtoSubmit.py:68-152 | the loop over wild sightings is one step each, and returns all unsigned ids |
| Sightings.ProtoSubmit.MonsNearby | mapadroid/db/DbPogoProtoSubmit.py:154-247 | the loop over nearby sightings is one step each, and returns the encounters of cells and of stops that got past the cache |
| Sightings.ProtoSubmit.MonIv | mapadroid/db/DbPogoProtoSubmit.py:249-339 | an encounter is one step, and new exactly when the cache does not know it |
| Sightings.ProtoSubmit.MonLureIv | mapadroid/db/DbPogoProtoSubmit.py:356-426 | a lure encounter is one step, and new exactly when the cache does not know it |
| Sightings.ProtoSubmit.MonLureNoIv | mapadroid/db/DbPogoProtoSubmit.py:428-492 | the loop over lures without IVs is one step each, and returns the encounters of all lured pokemon |
| Sightings.SightingsKeepInv | mapadroid/db/DbPogoProtoSubmit.py:68-492 | over any sightings an encountered row stays encountered, IVs are there exactly in those types, and an IV key implies such a row |
| Sightings.RowShows | mapadroid/db/DbPogoProtoSubmit.py:68-492 | over any run a row shows species and weather of the stored sighting that wrote them last, 132 for a ditto given away; its type is that of the encounter stored last, else wild once seen in the wild, else that of the handler that made it |
| Sightings.CacheMeaning | mapadroid/db/DbPogoProtoSubmit.py:68-492 | the cache has exactly the keys of the sightings that were stored and have not expired since |
| Sightings.IvsOfLastStored | mapadroid/db/DbPogoProtoSubmit.py:249-426 | a row shows the IVs of the encounter stored last, whatever came since |
| Sightings.EncounterShownIff | mapadroid/db/DbPogoProtoSubmit.py:266-335 | an encounter is shown afterwards if and only if it passed the cache or the one stored last has its IVs |
| Sightings.WeatherTurnsBack | mapadroid/db/DbPogoProtoSubmit.py:266-335 | a run in which the row keeps the IVs of another weather |
| Accounts.CooldownBounds | mapadroid/utils/gamemechanicutil.py:282-368 | a cooldown lies between 0 and 7200 seconds and reaches the cap exactly from a certain distance on |
| Accounts.SpeedAsTabled | mapadroid/utils/gamemechanicutil.py:282-365 | the assumed speed covers the last tabled distance reached in the tabled minutes, for each of 40 steps |
| Accounts.SpeedBeyondTable | mapadroid/utils/gamemechanicutil.py:282-368 | below the table the given speed counts, beyond it the cooldown is capped |
| Accounts.CooldownMonotoneWithinStep | mapadroid/utils/gamemechanicutil.py:282-368 | at one assumed speed a longer distance waits longer, up to the cap |
| Accounts.LongerThanThreshold | mapadroid/utils/gamemechanicutil.py:282-368 | exactly which distances below a threshold wait longer than the threshold itself |
| Accounts.CooldownDropsIff | mapadroid/utils/gamemechanicutil.py:282-368 | the cooldown drops at a threshold if and only if the assumed speed rises there and the threshold is not capped |
| Accounts.SoftbanClears | mapadroid/account_handler/AccountHandler.py:203-240 | 7200 seconds after a softban an account is usable if and only if its level fits and, for quests and levelling, the request says where |
| Accounts.NoLocationNeverClears | mapadroid/account_handler/AccountHandler.py:223-226 | without a place, quests and levelling get an account if and only if its level fits and it was never softbanned |
| Accounts.GrantMeaning | mapadroid/account_handler/AccountHandler.py:32-105 | an account is granted exactly if one is unbound or the device's own, not burnt, of fitting level, cooled down where that matters, and a PTC login or a Google login of the device; Google logins come first, among equals the one burnt longest ago |
| Accounts.AccountHandler.GetAccount | mapadroid/account_handler/AccountHandler.py:32-105 | the loops and writes are `Grant`; an unknown device gets nothing |
| Accounts.AccountHandler.NotifyLogout | mapadroid/account_handler/AccountHandler.py:108-116 | the account of the device loses its binding |
| Accounts.AccountHandler.MarkBurnt | mapadroid/account_handler/AccountHandler.py:131-145 | the account of the device is marked, no other |
| Accounts.RebindSafe | mapadroid/account_handler/AccountHandler.py:85-102 | unbinding the old and binding the new account keeps one account per device, also when they are the same |
| Accounts.UnbindSafe | mapadroid/account_handler/AccountHandler.py:108-116 | a logout frees the account of the device and touches no other |
| Accounts.GrantSafe | mapadroid/account_handler/AccountHandler.py:32-105 | a request keeps one account per device and takes no other device's account |
| Accounts.RunSafe | mapadroid/account_handler/AccountHandler.py:32-161 | over any run one account per device, and each account bears the mark made last on it |
| Accounts.RunBinds | mapadroid/account_handler/AccountHandler.py:32-161 | over any run an account is bound as the last request or logout that concerned it left it, and marks bind and unbind nothing |
| Accounts.NoBurntAccountGranted | mapadroid/account_handler/AccountHandler.py:174-201 | after any run an account is only granted when its last mark has cleared: never for a ban, after 7 days or 24 hours otherwise |
| ApkFilename.MatchReadable | mapadroid/mad_apk/apk_storage_fs.py:134-140 | the greedy pattern recovers the four parts of a name with a readable version |
| ApkFilename.MatchUnreadable | mapadroid/mad_apk/apk_storage_fs.py:134-140 | for any other version it misses, or gives another version or a package with an underscore |
| ApkFilename.LookupKnowsNoUnderscore | mapadroid/mad_apk/utils.py:144-164 | the package lookup knows no name with an underscore |
| ApkFilename.FoundByName | mapadroid/mad_apk/utils.py:144-164 | a package is found by the name it is published under, its short names and its number, and by nothing else |
| ApkFilename.FilenameRoundTripIff | mapadroid/mad_apk/utils.py:86-100 | reading a generated name back gives package, architecture, version and mimetype if and only if version and mimetype are readable |
| ApkStorage.ScanRecovers | mapadroid/mad_apk/apk_storage_fs.py:134-160 | the rebuild loop recovers a consistent index from any part of it, in any directory order |
| ApkStorage.RebuiltConsistentIff | mapadroid/mad_apk/apk_storage_fs.py:134-160 | an index rebuilt from nothing agrees with the directory if and only if no two files claim one place |
| ApkStorage.RebuildOrderFreeIff | mapadroid/mad_apk/apk_storage_fs.py:134-160 | the directory order does not matter if and only if no two files claim one place |
| ApkStorage.DeleteMeaning | mapadroid/mad_apk/apk_storage_fs.py:184-197 | a deletion removes entry and file, and fails exactly when there is none even after a rebuild |
| ApkStorage.DeleteSurvivesLoss | mapadroid/mad_apk/apk_storage_fs.py:184-197 | with any part of the index lost the same file is deleted, and the deletion fails exactly when there is none |
| ApkStorage.SaveMeaning | mapadroid/mad_apk/apk_storage_fs.py:261-312 | a save replaces the package, keeps index and directory consistent if and only if the name can be read back, and empties the place when the file cannot be written |
| ApkStorage.RunRefines | mapadroid/mad_apk/apk_storage_fs.py:112-312 | over any run of saves, deletions, reloads and restarts the storage is a map from places to what was saved last |
| ApkStorage.UnstorableLost | mapadroid/mad_apk/apk_storage_fs.py:134-160 | a package whose name cannot be read back is not found as saved after a restart |
| ApkStorageFilesystem.APKStorageFilesystem.ReloadIndex | mapadroid/mad_apk/apk_storage_fs.py:118-160 | the loop over the directory is `Reload` |
| ApkStorageFilesystem.APKStorageFilesystem.ValidateFile | mapadroid/mad_apk/apk_storage_fs.py:314-333 | an entry without a file is dropped and reported missing |
| ApkStorageFilesystem.APKStorageFilesystem.Delete | mapadroid/mad_apk/apk_storage_fs.py:184-197 | validation, deletion and the one retry after a rebuild are `DeleteFile` |
| ApkStorageFilesystem.APKStorageFilesystem.Save | mapadroid/mad_apk/apk_storage_fs.py:261-312 | two deletions, the write and the new entry are `SaveFile` |
| ApkStorageFilesystem.APKStorageFilesystem.GetCurrentVersion | mapadroid/mad_apk/apk_storage_fs.py:203-209 | the version that was saved, or none exactly when the place is empty |
| ApkStorageFilesystem.APKStorageFilesystem.GetChunks | mapadroid/mad_apk/apk_storage_fs.py:70-96 | the chunks served join to the bytes that were saved |
| Chunks.ChunksJoin | mapadroid/mad_apk/apk_storage_db.py:129-133 | the chunks concatenate to the data |
| Chunks.ChunksFull | mapadroid/mad_apk/apk_storage_db.py:129-133 | no chunk is empty and all but the last are full |
| Chunks.InsertChunks | mapadroid/mad_apk/apk_storage_db.py:129-133 | the rows inserted, by index arithmetic, are the chunks of the data |
| Chunks.ReadChunks | mapadroid/mad_apk/apk_storage_fs.py:90-96 | the reads that serve a file are the same chunks |

## Left out

General: Redis, SQLAlchemy, websockets, the file system and the clock are parameters or
nondeterministic choices. Logging, the web interface, screen handling, plugins, the download wizard
and migrations are not modelled.

- The matplotlib branch of the polygon test, and reading fences from files.
- The trigonometry of distances: the distance is arbitrary. The lemmas about finishing alone assume that nothing is closer to a place than the place itself.
- Route calculation: any route may come out of it. That a run starts from a round without repetitions is an assumption about it.
- Within one `get_next_location` call one database snapshot and one clock reading are used; `pop_event` is assumed to yield the due events and then nothing.
- Waiting for a calculation under way, sleep times, the timers that remove idle workers (a removal is a `Leave` step), the stop and priority-queue background tasks, and the overrides of the levelling, initialising and idle route managers.
- `redo_stop_immediately`, and priority slots in quest mode, which has no priority queue.
- RouteInterleavings.RunKeepsInv: covers the runs between two route calculations; a call that finishes a subroute or starts the manager begins a new run. The arguments of the process pool are taken to be pickled when it is called.
- RouteManagers.RouteManager.UpdateRoutepool: with nothing happening while it awaits the process pool; BeginUpdate and InstallUpdate are its two halves, and RouteInterleavings says what may happen between them.
- RouteManagers.WorkerChangedUpdateRoutepools: the computation of the copies, up to their return; what happens to the manager meanwhile is stated by RouteInterleavings.
- RouteManagers.RouteManager.JoinAndContinue: undisturbed; JoinDuringUpdateLost says what becomes of a worker that joins during another update.
- RouteManagers.RouteManager.GetNextLocation: one call without others in between; the exception for a manager that is being stopped and the wait for a route calculation under way are not modelled.
- HandOuts.QueueServedInOrder: one call without others in between, on a started manager that has a route; calls during a pool update are the matter of RouteInterleavings.
- HandOuts.WalksThroughQueue: for calls between which nothing else changes the manager and no priority event is served.
- RouteRuns.NextKeepsInv: for a joining worker with nothing happening during its update.
- RouteRuns.UnregisterKeepsInv: with nothing happening during the update of the removal.
- RouteRuns.FinishKeepsInvIff: the finish step as one step, with nothing happening during its database reads, its route calculation and its two updates.
- RouteRuns.LoneFinishKeepsInvIff: a worker alone in the area.
- The branch of the finish step that logs "Getting new coords" is dead for the entry left behind and has no counterpart.
- LoginRequest.LoginStore.HandleLoginRequest: the mutex within one process is not modelled, it only excludes interleavings; switching the limiter off and the defaults of the limits are not either. Foreign increments bear a second that is not in the future.
- Storing and removing the address of a device (`login_tracking_set_ip`, `login_tracking_remove_value`): plain key writes.
- DeviceJob.GlobalJobLogEntry.HandleJob: manual jobs only; automatic commands with `redo` would be queued twice by the code.
- UpdaterQueue.NoJobLost: without deletions, restarts by a user and raising websocket calls, and with unique job ids; adding a job is one step, and so is a handling.
- UpdaterRuns.HandledAsIfAlone: over runs without restarts of unconnected devices; a restart puts the job itself back, as RestartedWaits says of one handling.
- UpdaterConflicts.TasksSurviveIff: restarts of unconnected devices are excluded, as the old claim of a restarted job can be given back while the job runs again.
- UpdaterQueue.OwnedReleaseExclusive: runs with restarts of unconnected devices are excluded, as a restarted job may be claimed again before its old claim is given back.
- SpawnTimes.MinSecRoundTrip: `int()` on the two halves is modelled for decimal digits; times are UTC.
- SpawnTimes.TrsSpawn.Sight: the current event exists, and a spawnpoint occurs once per proto.
- Sightings.SightingsKeepInv: encounter protos carry IVs, and rows are not deleted in between.
- Accounts.GrantSafe: the availability query returns unassigned accounts and those of the device; the matching of Google names is an arbitrary predicate.
- ApkFilename.LookupKnowsNoUnderscore: `isdigit` and `int()` are modelled for ASCII digits, with the signs, underscores and spaces that `int()` allows.
- ApkStorageFilesystem.APKStorageFilesystem.Save: files change only through the storage, the directory has no subdirectories, and other refusals of the operating system are not modelled; they return false like a name with a slash.
- The configuration file: it is rewritten after every change and deleted before every rebuild, and reading it back happens only in a branch no caller reaches.
- The database package storage apart from its chunk loop.
