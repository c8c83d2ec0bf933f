# yandex-cloud-tools in Dafny

A model of the snapshot tool and the watchdog for Yandex.Cloud virtual machines.

- **Snapshot scripts.** `snaps.py` and its older revision `snapshoter.py` take the configured instance ids and do one of two jobs:
  - `--create` stops each instance, snapshots its boot disk and starts it again;
  - `--delete` deletes every snapshot of an instance's boot disk that is at least `lifetime` days old;
  - `--full` does both, deleting first.
- **Watchdog.** `watchdog.py` tries to drop the targets the cloud does not know, but skips the target after each one it removes. It then checks each remaining target after a delay and starts it when its status is `STOPPED`.
- **Shared code.** Both revisions of `Instance` are covered (`common/utils.py`, current; `utils.py`, older), as are the `retry` decorator of each revision and `human_time`.

Modules, one per file:

- `Base`:
  - `Option`, and the exceptions the model distinguishes;
  - `Filter`, with its order and count lemmas;
  - decimal rendering and parsing of numbers.
- `Retry`: the `retry` decorator as a function of a scripted wrapped call, and the decorator's loop as a method proved against it.
- `HumanTime`: `human_time` as a loop proved against a decomposition into unit parts.
- `Poller`: `operation_complete`, the polling loop with its 600-second ceiling, and the two revisions' return values.
- `Snapshots`: selecting a disk's snapshots and the old ones, and the `call_time` stamp used in snapshot names.
- `Responses`: how each request method turns an HTTP status code and body into its return value.
- `Api`: every `Instance` method as a function from the world before the call to the world after it and the value returned. The world holds the instances, request and wait counters, the calls made and the seconds slept.
- `Compute`:
  - `Cloud` is the remote side, whose state the requests change.
  - `Instance` is a class whose methods change `Cloud` exactly as the `Api` function of the same name says.
- `Workflows`:
  - `snapshots_creater` and `snapshots_cleaner` as loops over `Instance` objects;
  - each loop is proved against a recursive function over the world;
  - lemmas about those functions give the calls made, in order.
- `Dispatch`: the instance list and which workflows a run performs for its flags, in both revisions.
- `Watchdog`: the start-up pruning of targets (as written and as intended) and one round of a target's watch.

The cloud is a scripted environment:

- The n-th request gets status `codeAt(n)` and a body whose `id` is `idAt(n)`.
- The k-th poll of the n-th wait reads `pollAt(n)(k)`.
- A folder's snapshot listing is `listing[folder]`.
- The local clock reads `clockAt(n)`.
- The UTC clock reads `utcStart`, in whole seconds, when the run begins, and moves on by every second the tool sleeps.
- An accepted stop or start changes the instance's status at once.

## Model

| member | source | states |
|---|---|---|
| Retry.Retry | utils.py:19-38 | the decorated call's result, number of calls and sleeps are those of `RetrySpec`: 1 to `tries` calls, non-negative sleeps of `delay * backoff^k` between them, and the result is what the last call did, or `ValueError` when the sleep due after it is negative |
| Retry.RetryRunShape | utils.py:22-36 | every call but the last raised a listed exception and was followed by a sleep; the k-th sleep lasts `delay * backoff^k` and is never negative; the last call's outcome is the result, except that a negative sleep due after it (tries left, listed exception) raises `ValueError`; fewer than `tries` calls only on success, an unlisted exception or such a negative sleep |
| Retry.NegativeDelayRaisesValueError | utils.py:30-33 | a negative `delay`: the first caught exception with tries left ends the call in `ValueError` from `time.sleep`, after one call and no sleep |
| Retry.NegativeBackoffRaisesAtSecondSleep | utils.py:30-35 | a positive `delay` and a negative `backoff`: one sleep of `delay`, then the second caught exception raises `ValueError` |
| Retry.TransientThenSuccess | utils.py:24-36 | `n < tries` transient failures, with no negative delay due among them, then a success: `n + 1` calls, `n` sleeps, the value returned |
| Retry.UnlistedPropagatesAtOnce | utils.py:25-27 | an exception not in the tuple escapes from the first call without any sleep |
| Retry.DefaultsSleepFiveTenTwenty | utils.py:19 | with the defaults and a network that always fails: four calls, sleeps 5, 10, 20, and the last `ConnectionError` propagates |
| Retry.RetryAsWritten | common/decorators.py:7-26 | the `common` decorator as written: exactly one call and no sleep; a caught exception becomes `AttributeError` when `logger` is `True` (the default) or another value without a `warning` method, and `NameError` (from `time.sleep`) for a logger object or a falsy `logger` |
| Retry.AsWrittenNeverRetries | common/decorators.py:15-21 | one connection error then success: the working decorator returns the value after sleeping 5 s; the `common` one raises `AttributeError` |
| HumanTime.HumanTime | common/decorators.py:36-54 | the text is the first `granularity` rendered non-zero unit parts of the duration, joined by `", "` |
| HumanTime.Parts | common/decorators.py:47-53 | at most 7 parts, units strictly from largest to smallest, no zero value |
| HumanTime.TakeUnits | common/decorators.py:48-50 | each step is Python floor division and remainder by the unit's length, and the remainder is below the unit |
| HumanTime.PartsAddUp | common/decorators.py:47-50 | the parts add back up to the input, for every integer input |
| HumanTime.PartsCanonical | common/decorators.py:47-50 | every part outweighs all the parts after it together, so the decomposition is the canonical one |
| HumanTime.RemainderBelowUnit | common/decorators.py:48-50 | what follows a part adds up to less than one of that part's unit |
| HumanTime.ShownIsLargestUnits | common/decorators.py:47-54 | the shown parts are the `min(granularity, #parts)` largest non-zero units, in order |
| HumanTime.SingularName | common/decorators.py:51-53 | a value of 1 is written with the unit name minus its final `s` |
| HumanTime.ZeroIsEmpty | common/decorators.py:36-54 | zero seconds is written as the empty string |
| Poller.OperationComplete | common/utils.py:220-236 | the loop's outcome and poll count are those of `Complete`, and the time slept is 2 s per poll and at most 600 s |
| Poller.PollFrom | common/utils.py:223-236 | the wait stops at the first poll that says done (completed) or gives no status (failed), else at poll 300 (too long); every earlier poll said "not done" |
| Poller.Complete | common/utils.py:220-223 | a falsy id makes no poll and returns nothing; any other id makes 1 to 300 polls |
| Poller.CompletesAtFirstDone | common/utils.py:228-231 | the wait completes exactly at the first poll that says done, before the ceiling |
| Poller.TimesOutAfterCeiling | common/utils.py:233-236 | an operation never done is given up on after 300 polls, 600 seconds |
| Poller.DoneCheckedBeforeTimeout | common/utils.py:228-236 | done on the 300th poll counts as completed, not as too long |
| Poller.CurrentResult | common/utils.py:228-236 | the current revision returns a message naming the outcome, and `None` only for a falsy id |
| Poller.LegacyResult | utils.py:183-195 | the older revision returns `True` on completion and on timeout, `None` for a falsy id |
| Poller.RevisionsAgreeOnTruth | utils.py:190-195 | tested for truth, both revisions' values agree: true exactly for completed or too long |
| Poller.LegacyConflatesTimeout | utils.py:190-195 | the older revision cannot tell a timeout from a completion; the current one can |
| Snapshots.SelectOnDisk | common/utils.py:156-163 | the loop keeps exactly the listed snapshots of the boot disk, in listing order |
| Snapshots.SelectOld | common/utils.py:170-183 | `None` exactly when the listing is missing or empty, otherwise the listed snapshots old enough, in order |
| Snapshots.OnDiskExactly | common/utils.py:159-161 | a snapshot is kept as often as listed if taken of the disk, never otherwise |
| Snapshots.OldExactly | common/utils.py:176-180 | a snapshot is old exactly when at least `lifetime * 86400` seconds have passed since its creation |
| Snapshots.OldBoundary | common/utils.py:178-180 | exactly `lifetime` days old is deleted; one second younger is kept |
| Snapshots.OldExactlyKept | common/utils.py:174-183 | the old snapshots are the listed ones old enough, each as often as listed |
| Snapshots.CallTimeRoundTrip | common/utils.py:89-92 | the `%d-%m-%Y-%H-%M-%S` stamp has 19 characters and parses back to the time it came from |
| Snapshots.SnapshotNameParts | common/utils.py:278 | a snapshot name is the instance name, a dash and the stamp, and both parts can be read back |
| Responses.Answered | common/utils.py:244-250 | a request is accepted exactly on 200, with the body's id; otherwise it is refused with that code |
| Responses.Guarded | common/utils.py:238-271 | `start` and `stop`: nothing is sent exactly when the status is already the target (`RUNNING`, `STOPPED`); accepted exactly on 200 otherwise; an id is returned only then, and it is the body's |
| Responses.CreateSnapshot | common/utils.py:273-293 | 429 is a quota error, any other non-200 a refusal, 200 a started operation with the body's id |
| Responses.CreatedId | common/utils.py:283-293 | an id comes back only from a started operation |
| Responses.DeleteSnapshot | common/utils.py:295-305 | the body's id exactly on 200, `None` otherwise |
| Responses.GetData | common/utils.py:94-104 | 404 is "not found", another non-200 a failure, 200 the description |
| Responses.Data | common/utils.py:99-104 | the description exactly when found |
| Responses.IdsOnlyOn200 | common/utils.py:238-305 | no request method returns an id without a 200; `start`/`stop` send nothing in the state they would produce |
| Responses.QuotaLooksLikeRefusal | common/utils.py:283-288 | a quota error and any other refusal both give `None` |
| Api.GetData | common/utils.py:94-104 | the description exactly for an instance the cloud knows |
| Api.Stop | common/utils.py:255-271 | a stop call is sent exactly when the status is not `STOPPED`; on 200 the instance is stopped and the body's id returned; a sent request moves the request counter by one; when the status is already `STOPPED`, `None` and the world unchanged; a refused request gives `None` and leaves the instances alone |
| Api.Start | common/utils.py:238-253 | a start call is sent exactly when the status is not `RUNNING`; on 200 the instance is running and the body's id returned; a sent request moves the request counter by one; when the status is already `RUNNING`, `None` and the world unchanged; a refused request gives `None` and leaves the instances alone |
| Api.CreateSnapshot | common/utils.py:273-293 | one snapshot request (the request counter moves by one) for the boot disk in the instance's folder, named after it and the time; the id only on 200 |
| Api.AllSnapshots | common/utils.py:146-168 | no request for an unknown instance; otherwise one listing of its folder, counted as one request; a result exactly on 200 with a listing, and then the boot disk's snapshots |
| Api.OldSnapshots | common/utils.py:170-183 | the same calls as `AllSnapshots`; `None` when that found nothing; else its snapshots old by the UTC clock at the call, which has moved on by every second slept so far |
| Api.DeleteSnapshot | common/utils.py:295-305 | one delete request, counted as one; the id only on 200 |
| Api.Wait | common/utils.py:220-236 | one wait recorded with its poll count; the time slept grows by 2 s per poll |
| Api.WaitSleeps | common/utils.py:220-226 | a falsy id does not sleep; any other wait sleeps more than 0 and at most 600 seconds |
| Compute.Instance.constructor | common/utils.py:66-74 | `instance_data` is the description fetched at construction |
| Compute.Instance.GetData | common/utils.py:94-104 | the description, or `None` for an unknown instance |
| Compute.Instance.Status | common/utils.py:121-124 | the instance's current status |
| Compute.Instance.Stop | common/utils.py:255-271 | changes the cloud and returns exactly as `Api.Stop` |
| Compute.Instance.Start | common/utils.py:238-253 | changes the cloud and returns exactly as `Api.Start` |
| Compute.Instance.CallTime | common/utils.py:89-92 | the stamp of the local time at the next request |
| Compute.Instance.CreateSnapshot | common/utils.py:273-293 | changes the cloud and returns exactly as `Api.CreateSnapshot` |
| Compute.Instance.GetAllSnapshots | common/utils.py:146-168 | changes the cloud and returns exactly as `Api.AllSnapshots` |
| Compute.Instance.GetOldSnapshots | common/utils.py:170-183 | changes the cloud and returns exactly as `Api.OldSnapshots` |
| Compute.Instance.DeleteSnapshot | common/utils.py:295-305 | changes the cloud and returns exactly as `Api.DeleteSnapshot` |
| Compute.Instance.OperationComplete | common/utils.py:220-236 | changes the cloud and returns exactly as `Api.Wait` |
| Workflows.CreateFor | snaps.py:57-74 | one turn of the creator loop changes the cloud and `snap_create` as `CreateOne` says |
| Workflows.SnapshotsCreater | snaps.py:54-74 | the whole creator changes the cloud and ends as `Creator` says |
| Workflows.BindSnapshot | snaps.py:63 | `snap_create` is bound and no instance changes |
| Workflows.UnknownInstanceSkipped | snaps.py:59 | an unknown instance is skipped with no call |
| Workflows.StoppedInstanceOnlySnapshotted | snaps.py:70-74 | a `STOPPED` instance gets exactly a snapshot request and one wait; no status change; `snap_create` untouched |
| Workflows.RunningInstanceRoundTrip | snaps.py:60-68 | when every request and poll succeeds: stop, wait, snapshot, wait, start, wait, in that order, and the instance ends `RUNNING` |
| Workflows.RefusedFirstStopIsUnbound | snaps.py:61-64 | a refused stop on the first instance ends the run in `UnboundLocalError` after the stop's wait |
| Workflows.RefusedStopReusesStaleId | snaps.py:60-68 | a refused stop on any instance not `STOPPED`, after an earlier one bound `snap_create`: the stop, its empty wait and a wait on the earlier snapshot come first; `snap_create` keeps the earlier id; no snapshot is requested; the run ends there exactly when the instance is `RUNNING` or that stale wait is falsy, and at most a start and its wait follow |
| Workflows.RefusedStopEndsAtStaleWait | snaps.py:60-66 | after a refused stop, on a `RUNNING` instance or when the wait on the earlier snapshot is falsy, the body ends with that wait and changes no instance |
| Workflows.RefusedStopStartsUnstopped | snaps.py:60-68 | after a refused stop, a truthy wait on the earlier snapshot starts an instance that is neither `STOPPED` nor `RUNNING`, although the run never stopped it; an accepted start leaves it `RUNNING` |
| Workflows.AfterTruthyStop | snaps.py:62-64 | after a truthy stop wait the instance is snapshotted and the loop waits on that snapshot |
| Workflows.StopTimeoutStillSnapshots | snaps.py:62-63 | a stop still running after 600 s counts as done, and the snapshot is requested anyway |
| Workflows.IntendedBodyUsesOwnSnapshot | snaps.py:60-68 | the nested loop body never raises `UnboundLocalError`; it leaves a refused-stop instance alone and agrees with the as-written body after a truthy stop |
| Workflows.SnapshotsCleaner | snaps.py:40-50 | the cleaner changes the cloud and ends as `Cleaner` says |
| Workflows.DeleteAllCalls | snaps.py:46-50 | unless a poll fails: one delete then one wait per old snapshot, in order, whatever the API answers |
| Workflows.CleanOneCalls | snaps.py:43-50 | per instance: nothing for an unknown one; else a listing, then a delete and a wait for each old snapshot |
| Dispatch.InstanceListExactly | snaps.py:22 | the instance list is the configured ids minus empty ones, each as often as configured |
| Dispatch.RunScript | snaps.py:85-101 | a run changes the cloud and ends as `Run` says for its revision and flags |
| Dispatch.EmptyListQuits | snaps.py:27-30 | with no non-empty id the script quits and sends nothing |
| Dispatch.CreateIsCreatorOnly | snaps.py:88-90 | `--create` wins over the other flags and ends as the creator does |
| Dispatch.CleanerCleansOnly | snaps.py:40-50 | the cleaner only lists, deletes and waits; it never stops, starts or snapshots |
| Dispatch.CreatorExtends | snaps.py:54-74 | the creator only appends calls |
| Dispatch.FullCleansBeforeCreating | snaps.py:95-98 | under `--full`, all of the cleaner's calls come first; the creator then runs on the world the cleaner left |
| Dispatch.OlderCreateEndsInNameError | snapshoter.py:74-76 | `snapshoter.py --create` ends in `NameError` after the creator's calls whenever the creator finishes |
| Watchdog.FirstIndex | watchdog.py:49 | the position `list.remove` looks for: an occurrence of the item with none before it |
| Watchdog.RemoveFirst | watchdog.py:49 | `list.remove`: the list without its first occurrence of the item, the rest in order, one element shorter |
| Watchdog.RemoveFirstCounts | watchdog.py:49 | `list.remove` takes away exactly one occurrence of the item and nothing else |
| Watchdog.PruneTargets | watchdog.py:47-49 | the pruning loop leaves the list `PruneFrom` gives, with the iterator's skipping |
| Watchdog.PruneKeepsResolved | watchdog.py:47-49 | pruning never adds an id and never removes one that resolves |
| Watchdog.PruneAllResolved | watchdog.py:47-49 | when every target resolves, the list is unchanged |
| Watchdog.PruneSkipsSuccessor | watchdog.py:47-49 | two targets `[a, b]`, neither known, prune to `[b]` |
| Watchdog.ResolvedTargetsExactly | watchdog.py:47-49 | the intended pruning keeps exactly the resolving targets, each as often as listed |
| Watchdog.PruningsAgreeWhenAllResolve | watchdog.py:47-49 | both prunings leave an all-known list unchanged |
| Watchdog.NoTargets | watchdog.py:37-41 | the target list is empty exactly when every configured target is empty |
| Watchdog.StartQuitsWithoutTargets | watchdog.py:37-44 | both start-ups quit, before any pruning or watch, exactly when no configured target is non-empty |
| Watchdog.StartResolvedRaisesWhenNoneKnown | watchdog.py:41-65 | the corrected start-up raises `ValueError` (`asyncio.wait` on no task) exactly when there are non-empty targets and the cloud knows none of them |
| Watchdog.StartWatchesUnknownTarget | watchdog.py:37-65 | any two non-empty unknown targets: as written, the second is watched; as intended, start-up raises `ValueError` |
| Watchdog.StartResolvedWatchesKnown | watchdog.py:37-49 | the intended start-up watches exactly the configured, non-empty, known ids |
| Watchdog.Check | watchdog.py:52-59 | one round of a watch changes the cloud and ends as `CheckOnce` says |
| Watchdog.CheckLeavesOthersAlone | watchdog.py:54-57 | an instance not `STOPPED` is left alone; the round only sleeps |
| Watchdog.CheckStartsStopped | watchdog.py:57-59 | a `STOPPED` instance gets a start and a wait; it is `RUNNING` when accepted; the round fails only on a failed poll |

## Left out

- HTTP, JSON, the IAM token request (`get_iam`) and the configuration file: requests are answered by the scripted cloud, and the instance list, lifetime and delay are parameters.
- Logging, `print`, `__repr__`/`__str__`, `delta_time` and the argument parser: output only. Flags are a `Flags` value.
- `instance_status_info` only reads and logs, so in `Dispatch.Run` it changes nothing.
- The `thread` decorator, asyncio scheduling and the watchdog's endless loop: the watchdog is modelled as one round per target. The concurrent interleaving of several watches is not modelled.
- Network exceptions inside the workflows: the `retry` decorators are modelled on their own, in `Retry`, and no workflow call raises `ConnectionError` or `Timeout`.
- The asynchronous `async_operation_complete` is the same loop with `asyncio.sleep`, so `Poller.OperationComplete` stands for both.
- `common/compute.py`, the `Instance` the watchdog imports, is not part of this model; `Compute.Instance` stands in for it.
- Compute.Instance.Status: requires an instance the cloud knows; the source raises `AttributeError` on `None.get` for an unknown one.
- Watchdog.Check: requires a known target for the same reason.
- Api.GetData: the cloud answers only 200 or 404. Other codes are classified in `Responses.GetData` but not scripted.
- Api.Stop: in the older revision, `stop` reads the status twice, and its last branch (which would raise `NameError` on `loggin`) runs only if the status changes between the two reads. The model's status reads are stable, so that branch is not modelled.
- Deleting a snapshot does not change a folder's listing, and accepted operations take effect at once: the scripted listing and statuses are what the tool reads.
- The UTC clock moves on only while the tool sleeps: the time requests take is not modelled, and all snapshots of one listing are aged at the same instant.
- Times are whole seconds, so the sub-second part of `utcnow()` and `strptime` parsing is not modelled. Years are 1000 to 9999.

## Findings

| source | as written | input that shows it | evidently intended | confidence | as-written member | corrected member |
|---|---|---|---|---|---|---|
| common/decorators.py:7-26 | the parameter `logger=True` hides the module logger, so `logger.warning` raises `AttributeError`; `time` is never imported, so with a logger object or a falsy `logger` the sleep raises `NameError`; no call is retried | one `ConnectionError`, then a value | retry with sleeps of 5, 10, 20 as in `utils.py` | not executed | Retry.AsWrittenNeverRetries | Retry.Retry |
| watchdog.py:47-49 | removing from `TARGETS` while iterating over it skips the item after each removed one | any two non-empty targets `[a, b]`, neither known | keep exactly the known targets | not executed | Watchdog.StartWatchesUnknownTarget | Watchdog.StartResolvedWatchesKnown |
| snapshoter.py:76 | `--create` calls `vm_status_info`, a name defined nowhere | any non-empty instance list whose creator run finishes | call `instance_status_info`, as `snaps.py` does | not executed | Dispatch.OlderCreateEndsInNameError | Dispatch.CreateIsCreatorOnly |
| snaps.py:62-64 | the wait on `snap_create` is not nested under the truthy stop wait, so `snap_create` is read when it was never bound, or still holds an earlier instance's id | a first instance whose stop request is refused | wait on `snap_create` and restart only after a snapshot was just requested | not executed | Workflows.RefusedFirstStopIsUnbound | Workflows.IntendedBodyUsesOwnSnapshot |
