# Rolling upgrades, broker state and unit state of the ceph-proxy charm

The ceph-proxy charm shares with the other Ceph charms a library (`lib/charms_ceph`) and with most Juju charms the
helpers in `charmhelpers`. This project models the parts of both that keep state over many steps, and proves what
these steps keep.

| module | what it models |
|---|---|
| `WatchDog` | the kickable timer between an upgrading node and the node that waits for it |
| `UpgradeOrder`, `Names` | how each node finds its place in the upgrade queue by sorting names |
| `RollingUpgrade` | the upgrade as a step system: any interleaving, crashes, retries, timeouts, one shared store |
| `RollProcedure` | the procedure of a single node as it is written, and that it keeps to the step system |
| `Recovery` | that every run can still be finished, and that the bound on rolling nodes is reached |
| `TimelyUpgrade`, `LateStarts`, `Stages`, `UnsafePace` | the same system when nobody is late: when exactly does it roll one node at a time? |
| `TimeGoesOn`, `MonitorBarrier`, `FailingBarrier` | punctual runs never get stuck; when exactly do all monitors get through their barrier? |
| `Broker`, `BrokerJoin` | the groups, services and derived capabilities of cephx clients, over any request history |
| `UnitData`, `UnitHistory`, `UnitDelta` | the transactional key/value store with revisions, its log, and deltas |
| `DeferredRestarts`, `RestartRuns` | restarts after changed files, carried out or recorded for later |
| `ConfigFlags` | the parser of `key=value` flag strings |
| `CrushTree`, `CrushMap` | flattening the CRUSH tree, and editing the CRUSH map as text |
| `ServicePorts` | readiness events and the ports that each managed service owns |
| `DeviceAllocation` | placing log and database volumes on the least used device of a set |
| `SettingsOverlay` | overlaying user overrides on hardening defaults along a schema |
| `Lists`, `Wrappers` | lists without duplicates, options |

Objects that the code updates in place are classes whose methods are proved against a function of the old state; the
long-run results are lemmas about these functions, over every history. Loops of the code are loops here. Times are real
numbers of seconds.

## What the proofs brought to light

- The 30 minutes for which a node waits for its predecessor to *start* bound the whole queue before that predecessor,
  not one roll. Punctual, living nodes roll one at a time if and only if a roll takes less than 1801 s and the last
  node but one is sure to start before 1801 s (`UnsafePace.OneAtATimeExactly`). With whole seconds or a window of at
  least a second that start is window + (n - 2)(roll time + 29 s), apart from a first roll of a few seconds
  (`UnsafePace.OneAtATimeByConfiguration`). At every other pace two nodes can roll at once
  (`UnsafePace.TwoRollAtOnce`); with half-hour rolls three nodes are enough.
- Between any two nodes that are in the middle of their roll some node has given up waiting; this is the exact sense
  in which the roll is one at a time (`RollingUpgrade.UnfinishedPairNeedsBypass`).
- No crash or timeout is final (`Recovery.EveryNodeCanFinish`), but a retry has its price: monitors that crash at the
  barrier and roll once more roll beside their successors, in the end all at once (`Recovery.AllMonitorsRoll`).
- Two minutes between kicks is the exact limit that 180 s and 300 s tolerate (`WatchDog.TwoMinutesIsTheLimit`).
- The barrier checks its time limit even after a scan that found all keys, so a late but complete scan still fails.
  Ten minutes suffice for punctual monitors if and only if max(window, 29 s) + (n - 2)(roll time + 29 s) + roll time
  is less than that (`FailingBarrier.BarrierExactly`).
- With a group namespace the prefix is put before a name that already has it, so the client misses its pools; every
  history gives the join of grants and pools if and only if there is no namespace
  (`BrokerJoin.NamespaceMissesThePool`, `BrokerJoin.JoinNeedsEmptyNamespace`).
- A repeated grant is harmless unless its object prefixes are out of date: then it brings the old ones back
  (`BrokerJoin.ReplayIsIdle`, `BrokerJoin.StalePrefixesComeBack`).
- When a log or database volume of an OSD exists on another device than the least used one, the command names it in the
  group of the latter, where it is not (`DeviceAllocation.NamedVolumesExist`).
- A port is safe if and only if one service alone lists it and nobody else has opened it
  (`ServicePorts.UnsharedExactly`).
- The devices are sets, whose order can change from one call to the next. Log and database devices that overlap can
  get out of balance, unless all log devices are database devices and at most one database device is not shared
  (`DeviceAllocation.BoundsSurviveExactly`, `DeviceAllocation.OverlapUnbalances`, `DeviceAllocation.OrderDecides`).
- `unset` of a key that the same revision has changed raises an IntegrityError, after the deletion has happened
  (`UnitHistory.SetThenUnsetFails`, `UnitHistory.FailedUnsetLeavesLogBehind`); a stored value that equals the deletion
  marker cannot be told from a deletion (`UnitHistory.RebuildIsExact`).
- A delta cannot tell null from absent (`UnitDelta.DeltaRoundTrip`), and `LIKE` makes another key of the range stand
  in for an updated one when case or wildcards let it (`UnitDelta.DeltaAfterUpdate`).
- `restart_services_action` without services and without `deferred_only` ends in a TypeError when event files exist
  (`DeferredRestarts.EventStore.RestartServicesAction`). A permitted `deferrable_svc_restart`, or an action that fails
  after some services have started, leaves the events of restarted services behind
  (`RestartRuns.RestartLeavesNoEvent`). `clear_deferred_events` documents a match of actions that its code does not
  make; the model follows the code.
- An empty last flag value is lost, because the string is stripped of `=` before it is cut
  (`ConfigFlags.EmptyLastValueIsLost`).
- The `raise` for an unexpected schema type in `_apply_overrides` is itself a TypeError, since Exception takes no
  `level`; the model only has that it raises.

## Model
| member | source | states |
|---|---|---|
| WatchDog.Kicker.constructor | lib/charms_ceph/utils.py:2456-2469 | A new watchdog has never run its kick function and was never kicked. |
| WatchDog.Kicker.KickTheDog | lib/charms_ceph/utils.py:2471-2483 | The kick function runs at the first call and then only when more than the interval has passed since it last ran; the time of every call is kept. |
| WatchDog.KickAllFacts | lib/charms_ceph/utils.py:2471-2483 | After any regular calls the last `alive` write is at most one interval older than the last call. |
| WatchDog.StampsAreSpaced | lib/charms_ceph/utils.py:2433-2436 | However often the function is called, successive `alive` writes lie more than the interval apart. |
| WatchDog.LiveNodeIsNotDead | lib/charms_ceph/utils.py:2569-2573 | A node that calls at least every 120 seconds is never presumed dead by a waiter, from its first kick on. |
| WatchDog.TwoMinutesIsTheLimit | lib/charms_ceph/utils.py:2320-2321 | With the configured 180 and 300 seconds a live node is never presumed dead if and only if the gap between its calls is at most 120 seconds. |
| WatchDog.WaitUntil | lib/charms_ceph/utils.py:2485-2501 | Whatever the awaited function answers: at most 362 polls, an end within 1829 seconds, success exactly when the last poll observed it, giving up only after more than 1800 seconds, and every earlier poll had reason to go on. |
| WatchDog.TimedWait | lib/charms_ceph/utils.py:2503-2578 | The same bounds; it returns normally exactly when completion was observed, and otherwise for the cause that the last poll shows: dead, timed out, or an `alive` text that is not a number. A node that never kicks is given up after more than 600 and at most 629 seconds. |
| WatchDog.WaitOnPreviousNode | lib/charms_ceph/utils.py:2348-2419 | Both phases together end within 3658 seconds and 724 polls; every poll before the last decides to go on, and each way of ending is exactly what the last poll decides. |
| UpgradeOrder.GetUpgradePosition | lib/charms_ceph/utils.py:2581-2596 | The first index of the name, or nothing (the ValueError) exactly when it is not listed. |
| UpgradeOrder.FindPlan | lib/charms_ceph/utils.py:2625-2651 | From its sorted list a node learns whether it is first, behind which other node it waits, or that it is no member, even if a host is listed twice. |
| UpgradeOrder.PlanOfPlace | lib/charms_ceph/utils.py:2143-2164 | A plan is right for the i-th member in sorted order if and only if it is first for i = 0 and otherwise behind member i - 1, which is the place that the step system gives it. |
| UpgradeOrder.PlanIsUnique | lib/charms_ceph/utils.py:2125-2138 | The plan is determined by the set of member names alone. |
| UpgradeOrder.QueuesAgree | lib/charms_ceph/utils.py:2137-2138 | Nodes that see the same members in different orders sort them into the same queue. |
| UpgradeOrder.PlansFormAChain | lib/charms_ceph/utils.py:2147-2160 | No two members have the same place or wait for each other. |
| UpgradeOrder.EveryMemberIsReached | lib/charms_ceph/utils.py:2147-2160 | Following predecessors from any member passes every smaller name and ends at the least one. |
| RollingUpgrade.StepKeepsInv | lib/charms_ceph/utils.py:2297-2345 | Every step of every node (enter, poll, write start, kick, write done, barrier, action, crash, retry, passing of time) keeps the invariant of keys, phases and history. |
| RollingUpgrade.KeysAreMonotone | lib/charms_ceph/utils.py:2305-2345 | Over a whole run the keys of a fresh version and the recorded history only grow. |
| RollingUpgrade.UnfinishedPairNeedsBypass | lib/charms_ceph/utils.py:2360-2419 | Between two nodes that have `start` but not both `done` there is, in sorted order, a node that went ahead because its wait timed out or its predecessor was presumed dead. |
| RollingUpgrade.UnfinishedBound | lib/charms_ceph/utils.py:2116-2165 | In every reachable state at most one node more than those that went ahead is unfinished; rolling nodes are bounded likewise, plus nodes that repeat a finished roll. |
| RollingUpgrade.DoneIsPrefix | lib/charms_ceph/utils.py:2138-2165 | As long as nobody went ahead, the nodes with `done` are exactly a prefix of the sorted members and only the next one can be rolling for the first time. |
| RollingUpgrade.BarrierHolds | lib/charms_ceph/utils.py:2166-2186 | If `bootstrap_manager` or `enable_msgr2` has run, all members had published `done` by then and still have, despite timeouts, crashes and retries; only the actions that the version calls for run. |
| RollingUpgrade.FinishedHasActed | lib/charms_ceph/utils.py:2166-2186 | In every reachable state a monitor that has finished has run `bootstrap_manager` if the version is luminous, and `enable_msgr2` if it is nautilus or later. |
| RollingUpgrade.ManagersComeFirst | lib/charms_ceph/utils.py:2166-2186 | A monitor of luminous that enables msgr2 has bootstrapped the managers in an earlier step. |
| RollingUpgrade.ActionNeedsAllDone | lib/charms_ceph/utils.py:2083-2111 | In the state just before the step that runs an action every member is done, and so they were at a moment at least 30 seconds earlier. |
| Recovery.CrashAndRetry | lib/charms_ceph/utils.py:2114-2121 | A node that has not finished can crash at any moment and be started again, with all keys still in the store. |
| Recovery.EveryNodeCanFinish | lib/charms_ceph/utils.py:2116-2186 | Nothing that can go wrong is final: every run can go on to a state where every node has finished, and so has run all its actions. |
| Recovery.AllMonitorsRoll | lib/charms_ceph/utils.py:2297-2345 | The bound on rolling nodes is reached for every number of monitors that have a barrier: all roll at once although nobody went ahead, because all but the last repeat their roll after a crash at the barrier. |
| RollProcedure.WaitForPredecessor | lib/charms_ceph/utils.py:2348-2419 | Whatever the waiter finds in the store, its wait is a sequence of polls that the step system allows; it ends ready to roll, and is a bypass exactly when it does not end with `done` seen. |
| RollProcedure.Monitors.LockAndRoll | lib/charms_ceph/utils.py:2297-2345 | The keys written in order, `alive` only when the watchdog lets it through, with the same effect as the operations of the step system. |
| RollProcedure.RollIsAllowed | lib/charms_ceph/utils.py:2305-2345 | Start, any kicks and done are allowed in a row and lead to the next gate, recorded as a repeat exactly when `done` was there before. |
| RollProcedure.WaitForAllMonitors | lib/charms_ceph/utils.py:2083-2111 | It returns exactly when one of the first 21 scans finds all keys, at the first such scan, and otherwise raises at the 22nd, within 630 seconds. |
| TimelyUpgrade.PollsSucceed | lib/charms_ceph/utils.py:2373-2397 | In a punctual run at a safe pace no poll of either wait decides to give up. |
| TimelyUpgrade.TimelyRunKeepsTimes | lib/charms_ceph/utils.py:2297-2419 | Every state of a punctual run at a safe pace keeps the timing invariant of all phases and keys. |
| TimelyUpgrade.OneAtATime | lib/charms_ceph/utils.py:2373-2419 | In a punctual run at a safe pace nobody goes ahead: at most one node rolls, and all before it are done. The pace is safe when rolls take less than 1801 s and the last node but one starts before 1801 s at the latest. |
| TimelyUpgrade.LatestStartClosedForm | lib/charms_ceph/utils.py:2485-2501 | The latest start of node i, defined by the last vain poll and its 29 s of sleep, is window + i (roll time + 29 s), less the first roll if that is over before anybody can poll twice. |
| LateStarts.Advance | lib/charms_ceph/utils.py:2297-2419 | From any state in which everybody is still on plan a punctual run leads to any later moment: all polls, kicks and barrier scans that are due happen, and nobody starts, ends or gives up. |
| UnsafePace.TwoRollAtOnce | lib/charms_ceph/utils.py:2373-2382 | Every pace that is not safe, with any window, roll time and number of nodes, has a punctual run, nobody crashed or dead, that ends with two nodes rolling. |
| UnsafePace.OneAtATimeExactly | lib/charms_ceph/utils.py:2116-2165 | In all punctual runs at most one node rolls at a time if and only if the pace is safe. |
| UnsafePace.OneAtATimeByConfiguration | lib/charms_ceph/utils.py:2376-2382 | The same in numbers, for n >= 2 nodes and whole seconds or a window of at least 1 s: if and only if a roll takes less than 1801 s and window + (n - 2)(roll time + 29 s), less the first roll when window and roll are over within 5 s, is less than 1801 s. |
| UnsafePace.ShortFirstRollCounts | lib/charms_ceph/utils.py:2570-2578 | That correction counts: 62 nodes with a window and rolls of 1 s reach 1801 s without it, and yet never roll two at once. |
| TimeGoesOn.GoesOn | lib/charms_ceph/utils.py:2297-2345 | Punctuality never stops the clock: every punctual run, at any pace, can be continued to any later time by doing whatever is due. |
| MonitorBarrier.RunStaysInTime | lib/charms_ceph/utils.py:2083-2111 | When the last node can be done less than 600 s after the first one, every state of a punctual run keeps all nodes within these times and all barrier scans at multiples of 30 s, the last at 600 s. |
| MonitorBarrier.BarrierNeverFails | lib/charms_ceph/utils.py:2097-2110 | Then no monitor ever fails in a punctual run; the same holds for a single node and for versions without an action. |
| FailingBarrier.BarrierFails | lib/charms_ceph/utils.py:2097-2110 | When the last node can be done 600 s after the first one or later, some punctual run ends with a failed monitor: node 0 is done at once, scans in vain at 600 s, and the scan after that comes too late. |
| FailingBarrier.BarrierExactly | lib/charms_ceph/utils.py:2083-2111 | For whole seconds or a window of at least 1 s: no monitor of n >= 2 that calls for an action ever fails in a punctual run if and only if max(window, 29 s) + (n - 2)(roll time + 29 s) + roll time is less than 600 s. |
| Broker.CephBroker.BuildServiceGroups | lib/charms_ceph/broker.py:332-356 | Every group that a service names under some permission, with the group record read behind the namespace. |
| Broker.CephBroker.PoolPermissionList | lib/charms_ceph/broker.py:277-298 | The capability list: permissions in order, groups and pools in stored order, then object prefixes by permission. |
| Broker.CapsInOrder | lib/charms_ceph/broker.py:281-297 | In the list pools come before object prefixes, and each in the ascending order of their permissions. |
| Broker.OneGroupInOrder | lib/charms_ceph/broker.py:282-288 | The part of one group lists its pools in the stored order, each once. |
| Broker.CephBroker.UpdateServicePermissions | lib/charms_ceph/broker.py:252-261 | Only the capabilities of the named client are replaced, by the derived list. |
| Broker.CephBroker.HandleAddPermissionsToKey | lib/charms_ceph/broker.py:202-237 | Both indexes and the client's capabilities after the request, all else unchanged. |
| Broker.CephBroker.AddPoolToGroup | lib/charms_ceph/broker.py:264-274 | The group with the pool, and fresh capabilities for exactly the services the group lists. |
| BrokerJoin.IndexesAgree | lib/charms_ceph/broker.py:202-237 | After any history, with or without namespaces, the stored indexes are exactly the relations granted and added of the history. |
| BrokerJoin.NamesAreMeant | lib/charms_ceph/broker.py:214-224 | A request grants the permission it names, or `rwx` when it names none or the empty text; the stored name of a group is its name, behind the namespace and a hyphen if there is one. |
| BrokerJoin.GroupAndServiceAgree | lib/charms_ceph/broker.py:212-232 | A group lists a service exactly when the service lists the group under some permission. |
| BrokerJoin.NoDuplicates | lib/charms_ceph/broker.py:225-231 | No stored list ever holds a name twice. |
| BrokerJoin.CapsMembers | lib/charms_ceph/broker.py:277-298 | A capability is in the list exactly when it comes from a pool of a granted group or from an object prefix. |
| BrokerJoin.PoolKeepsCurrent | lib/charms_ceph/broker.py:264-274 | After a pool is added, also the services that were not refreshed have the list that a fresh derivation would give. |
| BrokerJoin.CapsAreTheJoin | lib/charms_ceph/broker.py:202-298 | After any requests without a namespace, in any order, exactly the clients have capabilities and these are the join of grants and pools plus the latest object prefixes. |
| BrokerJoin.RepeatIsIdle | lib/charms_ceph/broker.py:202-274 | Repeating a request at once changes neither the store nor any emitted list, not even its order; namespaces included. |
| BrokerJoin.ReplayIsIdle | lib/charms_ceph/broker.py:202-274 | Repeating any earlier request of a history without namespaces changes nothing if and only if its object prefixes, if it has any, are the latest ones of its client. |
| BrokerJoin.StalePrefixesComeBack | lib/charms_ceph/broker.py:205-209 | The input that shows it: after two grants with different object prefixes, repeating the first changes the store, and the client gets the old prefix back. |
| BrokerJoin.NamespaceMissesThePool | lib/charms_ceph/broker.py:215-216 | With a namespace the join fails: after a grant and a pool for the same group the client may use the pool if and only if the namespace is empty. |
| BrokerJoin.JoinNeedsEmptyNamespace | lib/charms_ceph/broker.py:202-274 | When all requests use one namespace, every history gives the join of grants and pools if and only if this namespace is absent or empty. |
| UnitData.Storage.SetValue | charmhelpers/core/unitdata.py:276-326 | The key holds the value; a changed value has the one row of its revision, an unchanged one leaves the log alone. |
| UnitData.SetMeaning | charmhelpers/core/unitdata.py:276-326 | Setting changes this key alone; the log gains the value under the open revision exactly when the stored value was another one or none. |
| UnitData.Storage.UnsetKey | charmhelpers/core/unitdata.py:242-250 | The key is gone, with a deletion row if it was stored; an IntegrityError exactly when this revision already has a row for it. |
| UnitData.Storage.UnsetRange | charmhelpers/core/unitdata.py:252-267 | The keys are gone; deletion rows for all named keys if any was stored, or none and an IntegrityError exactly when one repeats a row. |
| UnitData.UnsetMeaning | charmhelpers/core/unitdata.py:252-267 | Whatever the revision, and even when the log refuses its rows, the named keys are gone and all others keep their values. |
| UnitData.UnsetIsLogged | charmhelpers/core/unitdata.py:252-267 | The log gains the row DELETED for every named key exactly when a revision is open, some named key was stored and no row clashes. |
| UnitData.Storage.Update | charmhelpers/core/unitdata.py:231-240 | The items in order, each under the prefix. |
| UnitData.Storage.FlushAll | charmhelpers/core/unitdata.py:377-383 | Saving commits the working tables, not saving takes them back to the last commit. |
| UnitData.Storage.HookScope | charmhelpers/core/unitdata.py:357-375 | The scope ends by commit or rollback; working and committed tables agree, no revision is left open, and a body's exception is passed on. |
| UnitData.BodyRaises | charmhelpers/core/unitdata.py:357-375 | The body of a scope raises exactly when one of its operations fails in the state that those before it have left. |
| UnitData.BodyKeepsHooks | charmhelpers/core/unitdata.py:357-375 | The operations of a body leave the table of hooks alone. |
| UnitHistory.LogRebuildsThePast | charmhelpers/core/unitdata.py:300-326 | After any run of hooks the newest row of each key at or below an earlier hook's revision gives the committed store at the end of that hook, up to values that equal the deletion marker. |
| UnitHistory.RebuildIsExact | charmhelpers/core/unitdata.py:247-250 | The rebuilt store is the committed one if and only if no stored value equals the marker. |
| UnitHistory.PastIsKept | charmhelpers/core/unitdata.py:307-324 | Later hooks leave the rows of earlier revisions alone. |
| UnitHistory.RaisingScopeRollsBack | charmhelpers/core/unitdata.py:367-375 | A scope that raises leaves store, log and hook table as last committed: before the scope, or by a flush of its own. |
| UnitHistory.RevisionsIncrease | charmhelpers/core/unitdata.py:362-366 | A scope that ends well records its hook's name under a revision above all earlier ones; no scope loses one or changes the name of one. |
| UnitHistory.HistoryIsComplete | charmhelpers/core/unitdata.py:407-418 | The join with the hook table in gethistory loses no row of the log. |
| UnitHistory.SetThenUnsetFails | charmhelpers/core/unitdata.py:242-250 | A key set to a new value cannot be unset in the same revision: the body raises if and only if the set changed the value or a row was there before. |
| UnitHistory.FailedUnsetLeavesLogBehind | charmhelpers/core/unitdata.py:246-250 | Such a failing unset has already deleted the key, while the log still tells the old value. |
| UnitDelta.PrefixedMatches | charmhelpers/core/unitdata.py:220-221 | Every key that begins with the prefix is in the range, whatever wildcards the prefix holds. |
| UnitDelta.LikeMeaning | charmhelpers/core/unitdata.py:220-221 | A key is in the range exactly when it can be cut so that each character of the pattern covers its part: any text for a percent sign, one character for an underscore, else the same letter up to ASCII case. |
| UnitDelta.LiteralPrefix | charmhelpers/core/unitdata.py:220-221 | Without wildcards the range is exactly the keys that begin with the prefix up to the case of ASCII letters. |
| UnitDelta.GetRangeStripped | charmhelpers/core/unitdata.py:210-229 | The stripped range holds exactly the stripped names of the range's keys, each with a value of one of them. |
| UnitDelta.ComputeDelta | charmhelpers/core/unitdata.py:337-355 | The added, removed and changed keys, with the old and the new value. |
| UnitDelta.DeltaTellsBoth | charmhelpers/core/unitdata.py:337-355 | The delta tells, for exactly the keys whose values differ, the value in the range as the old and the value in the mapping as the new one, null for absent. |
| UnitDelta.DeltaReadBackwards | charmhelpers/core/unitdata.py:328-355 | Read backwards from the mapping it gives the range, if and only if no key of the range is null without being null in the mapping. |
| UnitDelta.DeltaRoundTrip | charmhelpers/core/unitdata.py:328-355 | Applying the delta to the range gives the mapping if and only if no key turns null. |
| UnitDelta.DeltaIsEmpty | charmhelpers/core/unitdata.py:328-355 | The delta is empty exactly when range and mapping are equal. |
| UnitDelta.UpdateMeaning | charmhelpers/core/unitdata.py:231-240 | update sets exactly the prefixed keys to the mapping's values and keeps all others. |
| UnitDelta.DeltaAfterUpdate | charmhelpers/core/unitdata.py:328-355 | After an update the delta holds only removals, for every order in which the database may deliver rows, if and only if no other stored key is stripped to an updated name with another value. |
| UnitDelta.LiteralPrefixHasNoShadows | charmhelpers/core/unitdata.py:210-229 | A prefix without wildcards and keys that differ in more than case rule such a key out. |
| DeferredRestarts.EventStore.DuplicateEventFiles | charmhelpers/contrib/openstack/deferred_events.py:136-148 | Exactly this application's event files that ask for the same service, action and reason. |
| DeferredRestarts.EventStore.SaveEvent | charmhelpers/contrib/openstack/deferred_events.py:169-198 | A new file in the charm's name, unless a duplicate is there. |
| DeferredRestarts.SavedMeaning | charmhelpers/contrib/openstack/deferred_events.py:169-198 | Unless a file asks for the same already there is exactly one file more, the event in the name of the charm, and all other files stay. |
| DeferredRestarts.EventStore.ClearDeferredEvents | charmhelpers/contrib/openstack/deferred_events.py:201-218 | Exactly the files of the given services are removed, whatever their action or requestor. |
| DeferredRestarts.EventStore.CheckAndRecordRestartRequest | charmhelpers/contrib/openstack/deferred_events.py:277-296 | Permission, or a recorded request whose reason lists the changed files sorted and once each. |
| DeferredRestarts.ReasonNamesFiles | charmhelpers/contrib/openstack/deferred_events.py:277-296 | The recorded reason names every changed file. |
| DeferredRestarts.EventStore.CollectChanges | charmhelpers/core/host.py:919-928 | The services of all changed files, once each in the order of first mention, and for each service the set of its changed files. |
| DeferredRestarts.AffectedMeaning | charmhelpers/core/host.py:922-928 | A service is affected exactly when some entry names it whose path exists only before or only after the function, or whose content differs, and exactly these paths are noted for it. |
| DeferredRestarts.OrderOfMention | charmhelpers/core/host.py:919-928 | Services come once each, in the order in which changed files mention them first. |
| DeferredRestarts.EventStore.RestartOnChange | charmhelpers/core/host.py:929-944 | Every affected service is restarted and its events cleared, or all are recorded; in order, no other service touched. |
| DeferredRestarts.EventStore.DeferrableSvcRestart | charmhelpers/contrib/openstack/deferred_events.py:299-314 | A restart that keeps all event files, or a recorded request. |
| DeferredRestarts.EventStore.GetDeferredServices | charmhelpers/contrib/openstack/utils.py:1791-1793 | The services with a restart event of this application. |
| DeferredRestarts.EventStore.ExtractServices | charmhelpers/contrib/openstack/utils.py:1264-1300 | The names of a list, once each, in the order of first mention. |
| DeferredRestarts.EventStore.ManagePayloadServices | charmhelpers/contrib/openstack/utils.py:1653-1661 | Every service is tried once, in the order of first mention; the messages name exactly those that were not handled cleanly, in this order, and so there is none exactly when all were. |
| DeferredRestarts.EventStore.RestartServicesAction | charmhelpers/contrib/openstack/utils.py:1775-1809 | Which services it covers, when it ends in which error, which services it has stopped and started by then, also when it fails halfway, that an error loses no event, and that success has stopped and started all and cleared theirs. |
| RestartRuns.RunKeepsInv | charmhelpers/core/host.py:867-944 | Every run of hooks, actions, direct restarts and package events keeps the invariant of event files and pending services. |
| RestartRuns.NoLostRestart | charmhelpers/contrib/openstack/utils.py:2654-2657 | At every point of every run a service with a watched file changed since its last restart has an outstanding restart event, and exactly the services with something put off have event files. |
| RestartRuns.HookMissesNothing | charmhelpers/core/host.py:929-944 | After any run, a hook restarts every service that a changed file names and clears its events, or leaves an outstanding event for it when restarts are not permitted. |
| RestartRuns.HookTouchesNothingElse | charmhelpers/core/host.py:929-944 | It restarts no other service and neither clears nor records an event of one. |
| RestartRuns.NoDuplicateRequests | charmhelpers/contrib/openstack/deferred_events.py:136-198 | No two events that the charm has recorded share service, action and reason. |
| RestartRuns.RestartClears | charmhelpers/contrib/openstack/deferred_events.py:257-263 | A restart by a permitted hook or by a successful action leaves its services without an event and every other event in place. |
| RestartRuns.RestartLeavesNoEvent | charmhelpers/contrib/openstack/deferred_events.py:299-314 | After any run, a step that restarts a service leaves it without an event if and only if the step is a hook or a successful action, or nothing was put off for it; a direct restart and an action that fails halfway leave an old event behind. |
| RestartRuns.DeferredActionSettlesAll | charmhelpers/contrib/openstack/utils.py:1788-1809 | After the action for deferred services no service with a changed file is left unrestarted. |
| ConfigFlags.ReadEntry | charmhelpers/contrib/openstack/utils.py:1984-2005 | One round: the stripped key behind the last comma and the stripped value before the last comma of the next piece, or an error when the key is missing. |
| ConfigFlags.ReadEntries | charmhelpers/contrib/openstack/utils.py:1983-2007 | The whole loop over the pieces, ended by its first error. |
| ConfigFlags.ConfigFlagsParser | charmhelpers/contrib/openstack/utils.py:1933-2007 | YAML, error or ordered flags, as the colon, the double equals sign and the pieces decide. |
| ConfigFlags.YamlExactly | charmhelpers/contrib/openstack/utils.py:1960-1968 | The text goes to YAML unchanged if and only if its first colon is not its first character and has no equals sign before it. |
| ConfigFlags.RefusedExactly | charmhelpers/contrib/openstack/utils.py:1970-2001 | Any other text is refused if and only if it has two equals signs in a row, or a piece between the first and the last has no comma. |
| ConfigFlags.PiecesMeaning | charmhelpers/contrib/openstack/utils.py:1979-1981 | The pieces are the text between its equals signs, without the blanks and equals signs at both ends. |
| ConfigFlags.InnerPiece | charmhelpers/contrib/openstack/utils.py:1986-2002 | An inner piece reads as the value before it, blanks and commas, a comma, and the key behind it, which has no comma. |
| ConfigFlags.OuterPieces | charmhelpers/contrib/openstack/utils.py:1988-1995 | The first piece is the first key, with its inner commas, and the last piece the last value, with blanks and commas around or behind. |
| ConfigFlags.ParsedMeaning | charmhelpers/contrib/openstack/utils.py:1983-2007 | Every piece but the last has its key in the dictionary, where the last of several entries counts; keys have no blank or comma at their ends, and values none at the end. |
| ConfigFlags.SetItemMeaning | charmhelpers/contrib/openstack/utils.py:2005 | A known key gets the new value and keeps its place, a new key goes to the end. |
| ConfigFlags.PrintIsSplit | charmhelpers/contrib/openstack/utils.py:1981 | Cutting the printed flags at equals signs gives for each boundary the value, a comma and the next key. |
| ConfigFlags.RoundTrip | charmhelpers/contrib/openstack/utils.py:1939-1950 | Parsing `k1=v1, k2=v2, ...` gives the same ordered dictionary, inner commas of values included. |
| ConfigFlags.EmptyLastValueIsLost | charmhelpers/contrib/openstack/utils.py:1981 | Among dictionaries with such keys and values the round trip holds if and only if there is no entry at all or the last value is not empty. |
| ConfigFlags.ParsedComesBack | charmhelpers/contrib/openstack/utils.py:1939-2007 | What was parsed from any text, with keys that are not empty and have neither comma nor colon, comes back from its printed form if and only if its last value is not empty. |
| CrushTree.FlattenGivesPaths | lib/charms_ceph/utils.py:579-599 | The records of a node are those of the paths below it, in the same order. |
| CrushTree.PathsFromMembers | lib/charms_ceph/utils.py:585-596 | The enumerated paths are exactly those from the node down to the first node of the wanted type or a childless node. |
| CrushTree.DeepExactly | lib/charms_ceph/utils.py:592-596 | The traversal of a node stays within a depth exactly when no longer way down is expanded; cycles that no root reaches, or below a node of the wanted type, do not count. |
| CrushTree.OneRecordPerPath | lib/charms_ceph/utils.py:602-618 | Whenever the traversal ends on every root it gives one record per such path from a root, naming for every type the deepest node of that type. |
| CrushTree.LastNodeIsMeant | lib/charms_ceph/utils.py:612 | Of several nodes with the same id the last one is meant. |
| CrushTree.RootPathsAreDistinct | lib/charms_ceph/utils.py:602-618 | When no list of children repeats an id and no node is listed twice, no path has two records. |
| CrushTree.IdentifierMeansWantedType | lib/charms_ceph/utils.py:585-590 | A record carries name and identifier exactly when its path ends in the wanted type. |
| CrushTree.FlattenFails | lib/charms_ceph/utils.py:592-596 | Below one node a KeyError occurs if and only if some way down leads to a child that is not listed. |
| CrushTree.FlattenRootsFails | lib/charms_ceph/utils.py:612-618 | The whole function raises the KeyError if and only if some root of the list has such a way down. |
| CrushMap.ParseOfDecimal | lib/charms_ceph/crush_utils.py:61 | int() of a printed id is the id, negative ones included. |
| CrushMap.BucketIsParsed | lib/charms_ceph/crush_utils.py:22-39 | Both patterns find in one printed bucket exactly its name and id, whatever the name. |
| CrushMap.BucketTextIsTemplate | lib/charms_ceph/crush_utils.py:22-39 | The printed bucket has the words of the template, with the name in its four places and the id in one. |
| CrushMap.WordsEndingLikeThis | lib/charms_ceph/crush_utils.py:41-50 | Both patterns match also at the end of a longer word. |
| CrushMap.ReparseOfPrinted | lib/charms_ceph/crush_utils.py:116-129 | Parsing the built text gives the original roots followed by the added ones in order, and the same for the ids. |
| CrushMap.AddedIds | lib/charms_ceph/crush_utils.py:95-99 | The i-th added bucket has its name and the id i + 1 below the least id of the original text. |
| CrushMap.AddedIdsAreFresh | lib/charms_ceph/crush_utils.py:95-99 | Added ids are below all ids and all root ids in the text and never collide. |
| CrushMap.EnsureAddsWhatIsMissing | lib/charms_ceph/crush_utils.py:86-99 | After ensuring a bucket some root has the name; if one had it nothing changes, and if not the roots are the old ones and one of this name with the id below the least, also after loading the new text. |
| CrushMap.LeastIdSurvivesReload | lib/charms_ceph/crush_utils.py:68-72 | The next id is the same whether or not the map was saved and loaded in between. |
| CrushMap.SessionsCompose | lib/charms_ceph/crush_utils.py:56-129 | Adding in two sessions with a save and a load between them gives the same map as adding in one. |
| CrushMap.EnsureSurvivesReload | lib/charms_ceph/crush_utils.py:86-89 | Ensuring a bucket again adds nothing, in the same session or after a reload. |
| CrushMap.SortedAscends | lib/charms_ceph/crush_utils.py:62 | The loaded ids are in ascending order. |
| CrushMap.Crushmap.constructor | lib/charms_ceph/crush_utils.py:56-72 | The parsed buckets, all marked as default, and the sorted ids, or a single 0. |
| CrushMap.Crushmap.AddBucket | lib/charms_ceph/crush_utils.py:95-99 | One bucket more, with an id below all known ids. |
| CrushMap.Crushmap.EnsureBucketIsPresent | lib/charms_ceph/crush_utils.py:86-89 | Some bucket has the name afterwards; one is added, with the next id, and the map saved, exactly when none had it. |
| CrushMap.Crushmap.BuildCrushmap | lib/charms_ceph/crush_utils.py:116-125 | The loaded text followed by the added buckets and no default one. |
| ServicePorts.ServiceManager.LoadReadyFile | charmhelpers/core/services/base.py:250-257 | The cached set is the persisted one, or empty without a file. |
| ServicePorts.ServiceManager.SaveReady | charmhelpers/core/services/base.py:265-271 | The service joins the persisted set; nothing else changes. |
| ServicePorts.ServiceManager.SaveLost | charmhelpers/core/services/base.py:273-279 | The service leaves the persisted set; nothing else changes. |
| ServicePorts.ServiceManager.WasReady | charmhelpers/core/services/base.py:281-286 | Membership in the persisted set. |
| ServicePorts.ServiceManager.ManagePorts | charmhelpers/core/services/base.py:309-331 | Recorded ports that dropped out are closed, the new list is recorded, and its ports are opened or closed. |
| ServicePorts.ServiceManager.ReconfigureServices | charmhelpers/core/services/base.py:181-201 | All targets in order up to the first that is not registered: events, restarts, ports and the ready set. |
| ServicePorts.ServiceManager.StopServices | charmhelpers/core/services/base.py:203-212 | All targets in order: ports closed, then the service stopped; the ready set is kept. |
| ServicePorts.ReconfigureSettlesPorts | charmhelpers/core/services/base.py:188-201 | After one service is reconfigured exactly its listed ports are open for it if it is ready and none if not; all other ports stay as they are. |
| ServicePorts.NoLeakedPorts | charmhelpers/core/services/base.py:309-331 | Over any calls with changing readiness and port lists, and no shared ports, the open ports are exactly the foreign ones and those recorded for services that are up. |
| ServicePorts.SharedPortIsLost | charmhelpers/core/services/base.py:327-331 | With a shared port this fails in any state, whatever else the two services list: when one of them loses its data, the port of the other, which is up, is closed. |
| ServicePorts.ForeignPortIsLost | charmhelpers/core/services/base.py:327-331 | It fails as well for a service that lists a port opened by someone else. |
| ServicePorts.UnsharedExactly | charmhelpers/core/services/base.py:309-331 | For fixed port lists: no calls, whatever becomes ready or lost in them, ever leave open ports other than the foreign ones and those of services that are up, if and only if no two services list one port and none lists a foreign one. |
| ServicePorts.DataLostFiresOnEdges | charmhelpers/core/services/base.py:188-201 | Over any calls the persisted ready set is the one that the events imply, and every data_lost is a step from ready to not ready. |
| ServicePorts.LeavingNeedsDataLost | charmhelpers/core/services/base.py:195-201 | A service that was ready and is not any more has had a data_lost in between. |
| ServicePorts.CallSettles | charmhelpers/core/services/base.py:181-201 | A call without names leaves every registered service ready, up and with its ports recorded as its data and definition say, one with names exactly those; the others stay as they were. |
| ServicePorts.CallStops | charmhelpers/core/services/base.py:203-212 | A stop without names takes down every registered service, one with names exactly those; the ready set is kept. |
| ServicePorts.PortsInStep | charmhelpers/core/services/base.py:188-201 | Over any calls ports are opened only right after their service was (re)started, and a service is stopped only right after its ports were closed. |
| DeviceAllocation.LeastUsedIsFirstMinimum | lib/charms_ceph/utils.py:1508-1523 | The chosen device is the first in the order of the visit that no other undercuts. |
| DeviceAllocation.ExtraVolumes | lib/charms_ceph/utils.py:1735-1749 | The arguments for the write-ahead log and the database volume, and the volumes after both allocations. |
| DeviceAllocation.NamedVolumesExist | lib/charms_ceph/utils.py:1736-1747 | Each argument names a device of its kind and the volume of this kind and OSD, which is then on that device if and only if it was there before or existed nowhere. |
| DeviceAllocation.RepeatMakesNothing | lib/charms_ceph/utils.py:1959-1983 | The same OSD once more makes no volume on any device, in whatever order the devices are visited then. |
| DeviceAllocation.OneAllocation | lib/charms_ceph/utils.py:1958-1984 | A new volume goes to a least used device and nothing else changes. |
| DeviceAllocation.SpreadStaysBounded | lib/charms_ceph/utils.py:1508-1523 | After any allocations, each of which visits the set in an order of its own, the spread of the counts is at most what it was, or one. |
| DeviceAllocation.VolumesAreConserved | lib/charms_ceph/utils.py:1958-1984 | n allocations add n volumes in total, whatever the orders. |
| DeviceAllocation.EqualShares | lib/charms_ceph/utils.py:1508-1523 | From equal counts n allocations on d devices add n/d to each, rounded down or up, whatever the orders. |
| DeviceAllocation.AnyStartEvensOut | lib/charms_ceph/utils.py:1508-1523 | From any counts the devices fill up to the highest first and share the rest evenly, whatever the orders. |
| DeviceAllocation.OsdsStayBalanced | lib/charms_ceph/utils.py:1735-1749 | OSD after OSD, each seeing the sets in orders of its own, both kinds of devices keep their bound on the spread, for all sets for which that is possible at all. |
| DeviceAllocation.BoundsSurviveExactly | lib/charms_ceph/utils.py:1735-1749 | Exactly for which sets: they share no device, or every log device is a database device and at most one database device is no log device. |
| DeviceAllocation.OverlapUnbalances | lib/charms_ceph/utils.py:1735-1749 | An input that is not among them: log devices A, B, C and database device C, visited in this order, end with 2, 1 and 3 volumes after three OSDs from empty devices. |
| DeviceAllocation.OrderDecides | lib/charms_ceph/utils.py:1541 | The order of one visit decides: with log devices A and C and database device C the first OSD leaves 1 and 1 volumes when A is visited first, and 0 and 2 when C is. |
| DeviceAllocation.QuotientIsDivision | lib/charms_ceph/utils.py:1508-1523 | The quotient in these bounds is integer division. |
| SettingsOverlay.ApplyOverrides | charmhelpers/contrib/hardening/utils.py:86-106 | The overlay, or the failure, as the key-by-key definition has it, in whatever order the keys are visited; the recursion descends the schema. |
| SettingsOverlay.OverlayByPath | charmhelpers/contrib/hardening/utils.py:92-104 | At and below a schema leaf the override is taken if there is one, else the default; outside the schema the default stays. |
| SettingsOverlay.KeysByPath | charmhelpers/contrib/hardening/utils.py:92-104 | Apart from schema leaves the result has exactly the paths of the defaults. |
| SettingsOverlay.OverlayIsIdempotent | charmhelpers/contrib/hardening/utils.py:86-106 | Applying the same overrides again changes nothing. |
| SettingsOverlay.RaisesIffMisshapen | charmhelpers/contrib/hardening/utils.py:96-101 | With defaults that cover the schema it raises if and only if an override of a nested schema is truthy and no dictionary. |
| SettingsOverlay.PlainOverride | charmhelpers/contrib/hardening/utils.py:92-101 | For a nested schema an override that is no dictionary raises when it is true, and one that is false or empty changes nothing. |
| SettingsOverlay.MissingDefaultRaises | charmhelpers/contrib/hardening/utils.py:97-98 | A nested schema without a default raises as soon as it is overridden. |
| Names.SortIsUnique | lib/charms_ceph/utils.py:2138 | Sorting has one result, whatever the order of the list. |
| Names.LessMeaning | lib/charms_ceph/utils.py:2138 | The order of names: at the first difference the smaller character or the end of the text. |
| Names.SortKeys | lib/charms_ceph/broker.py:281 | Iteration over the keys of a dictionary in sorted order. |

## Left out
- Subprocesses, apt, systemd, sqlite, YAML, JSON and the file system: stores are maps, files are map entries, equal values have equal texts.
- RollProcedure.Monitors.LockAndRoll: nobody else writes in between; interleaving is the step system's part, where an operation writes only its own node's keys. An upgrade that exits before `done` is the step system's Crash.
- Clocks: store accesses and clock readings take no time, only sleeping does; `done` and `alive` are read at one instant in a poll.
- WatchDog.TwoMinutesIsTheLimit: both nodes are taken to agree on the time, as the comparison of `alive` with the local clock presumes.
- UnsafePace.OneAtATimeByConfiguration: windows below a second that mix with fractions have no such formula; UnsafePace.OneAtATimeExactly covers them with the recursive latest start.
- FailingBarrier.BarrierExactly: with fractional times and a window below a second the condition is sufficient (MonitorBarrier.BarrierNeverFails); whether it is necessary depends on how the fractions add up along the queue.
- RollingUpgrade.UnfinishedBound: keys of an earlier, unfinished attempt at the same version are not modelled; the version is fresh when the run begins.
- RollingUpgrade.BarrierHolds: the monitor map is taken to be the sorted member list and not to change during the run.
- `CalledProcessError` from the monitor store, and from `auth caps`, which the code logs and forgets.
- BrokerJoin.CapsAreTheJoin: requests with a namespace are left to BrokerJoin.JoinNeedsEmptyNamespace, as the join does not hold for them.
- BrokerJoin.ReplayIsIdle: requests with a namespace; for an immediate repeat they are covered by BrokerJoin.RepeatIsIdle.
- The request loop of the broker and all its other requests: pools, erasure profiles, RGW, mirrors.
- `unsetrange` by prefix, which logs a single row for a wildcard instead of a row per key.
- UnitHistory.RaisingScopeRollsBack: `SystemExit` and `KeyboardInterrupt`, which the scope does not catch.
- UnitDelta.LiteralPrefix: case folding is that of ASCII letters, and the escape character of LIKE, which the code does not use, is absent.
- `check_restart_timestamps`, paused units, hooks that raise, custom restart functions and the wait before restarts.
- RestartRuns.NoLostRestart: file contents are tags that differ when the contents differ; hash collisions are not modelled.
- ConfigFlags.ConfigFlagsParser: what the YAML parser makes of its text.
- CrushTree.OneRecordPerPath: a list in which some root has an endless way down, on which the code recurses without end, is outside the precondition.
- `get_osd_tree`, which turns the records into locations and sorts them; only the order of the names is used, in UpgradeOrder.
- CrushMap.ReparseOfPrinted: the text is the list of its words, so names of several words, a brace written next to another word and a number followed by letters are not modelled.
- `load_crushmap` and `save`, which pass a text as the input stream of a subprocess; the model starts from the decompiled text and ends at the built one.
- ServicePorts.NoLeakedPorts: ports are numbers, start and stop are the default callbacks; 'ICMP', which is closed with the wrong protocol when it drops out of a list, and custom callbacks are left out.
- DeviceAllocation.OsdsStayBalanced: encrypted devices, the data volume, sizes and volume group names; the configured devices do not change between the OSDs.
- SettingsOverlay.ApplyOverrides: values instead of dictionaries updated in place, so neither the change of the caller's defaults nor a partly updated dictionary after an exception is captured; which of several errors is raised first is not either.
- Release tables, OSD preparation commands, networking, Nagios, HA relation data, the command line, and snap and apt retries: plumbing, tables or easy members.
