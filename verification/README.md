# A verified model of the BACnet application layer

A Dafny 4.11 model of the application layer of bac-py, a BACnet stack (ASHRAE 135-2020),
with proofs about whole runs of its state machines and about the algorithms of its services.
`dafny verify dfyconfig.toml` checks the whole project.

| file | what it models |
|---|---|
| `Prelude.dfy` | options, outcomes, object identifiers, total variation |
| `EventMachine.dfy` | the event state machine of Clause 13.2 and its runs |
| `EventHistory.dfy` | its pending timer against the history of its inputs |
| `EventHysteresis.dfy` | the deadband evaluators of Clauses 13.3.5 and 13.3.6, fed with the machine's own state |
| `CovTables.dfy` | insertion-ordered dictionaries, master tables and their secondary indices |
| `CovRules.dfy` | when a COV subscription is notified, scans of many subscriptions, the increment rule over runs |
| `CovManager.dfy` | the COV manager: tables, subscriptions by identity, timers, the bucket loops |
| `CovRuns.dfy` | the manager over arbitrary sequences of operations |
| `CovOutcomes.dfy` | what requests, expiry and checks come to, in terms of the request, the clock and what is read |
| `Schedules.dfy`, `ScheduleEngine.dfy` | schedule resolution and write-on-change |
| `Hierarchy.dfy` | Structured View traversal |
| `ReadRange.dfy`, `BitStrings.dfy`, `WriteMultiple.dfy`, `ListElements.dfy`, `BackupRestore.dfy` | server algorithms |
| `CommunicationControl.dfy` | DeviceCommunicationControl and the gates that read it |

Code that updates objects is modelled by classes and methods with loops; each method is proved
against a function of its inputs or of the old state, and the lemmas are about those functions.
The lemmas called "Exactly", "Punctual" and the like pin each such function in terms that do not
mention it: comparisons, literal property and service numbers, sums of times, positions in lists.
Values and times are `real`; clocks, the replies of remote devices, calendar matching, value
decoding, what the encoder refuses, and the effect of a write are inputs.

Where the code and its own documentation differ, the model follows the code:

- The docstring of `handle_write_property_multiple` promises that all writes succeed or none is
  applied. The second pass stops at the first value that does not decode or is refused and keeps
  the writes before it, as in `WriteMultiple.NotAlwaysAtomic`; and a COV check that raises ends
  the request after its write, which is then neither undone nor recorded, as in
  `WriteMultiple.RaisingCheckIsNotAtomic`. `WriteMultiple.AtomicExactly` says when the promise is kept.
- The result flags of ReadRange are meant to say which ends of the list a window includes. An
  empty window at either end claims that end all the same (`ReadRange.EmptyWindowsClaimEnds`);
  `ReadRange.FlagsExactly` lists the requests for which this happens.
- `EventStateMachine` is meant to enter FAULT on faults only. A vendor algorithm may report
  FAULT as an event, and then FAULT is entered through the to-offnormal slot, or re-entered from
  itself: `EventMachine.FaultResultReentersFault` and `EventMachine.ProperExactly`. Only then can
  the pending state be the current one: `EventMachine.PendingForCurrentExactly`.
- After a check every subscription is meant to be less than an increment off. What cannot be
  reported makes the check raise: a value the encoder refuses, such as a number beyond single
  precision (`CovRules.CutShortCheckGoesStale`), or a subscription that can never be notified,
  such as one whose process identifier takes five octets (`CovRules.OversizedProcessGoesStale`).
  Its own subscription is not updated, and those behind it are not looked at.
  `CovRuns.ChecksKeepFresh` and, for object subscriptions, `CovRuns.ObjectSubscriptionsStayFresh`
  say exactly when the promise is kept.
- A subscription with a lifetime is meant to expire. A request for its key whose own lifetime is
  too long for a float cancels the timer and raises before anything is stored, so that the
  subscription stays for good: `CovRuns.OverlongLifetimeDisarms`. `CovRuns.ArmedExactly` says
  when a timer is armed.
- Traversal is meant to skip views that cannot be read. A Reject or an Abort, unlike an error or a
  timeout, is not caught and loses the whole result, and so is a list that does not decode:
  `Hierarchy.TraversalIsComplete`.
- Structured View traversal appends each subordinate before it descends into it, so the lists of
  different views interleave in the result. `Hierarchy.TraversalIsComplete` therefore speaks of
  the multiset of the results, of each view's list being found in its own order, and of the whole
  order being the same at every sufficient depth. A depth below the number of reachable views is not enough in general
  (`Hierarchy.ShallowerDepthMisses`).

## Model

| member | source | states |
|---|---|---|
| EventMachine.EventStateMachine.EvaluateCycle | src/bac_py/app/event_engine.py:105-177 | the early returns of one cycle amount to one demand (trip, ask, hold, release, ignore) served by the pending timer; the whole new state and the transition; what that comes to is said by FaultTripsAtOnce, NothingToDo and EventHistory.TransitionIsPunctual |
| EventMachine.EventStateMachine.ApplyDelay | src/bac_py/app/event_engine.py:179-201 | a target is entered once its demand has lasted for its delay, at once when the delay is not positive; the pending time is set whenever it is read |
| EventMachine.EventStateMachine.EnterState | src/bac_py/app/event_engine.py:203-218 | a transition clears the pending fields and exactly the acknowledged slot of its target |
| EventMachine.RunIsWellFormedPath | src/bac_py/app/event_engine.py:121-218 | in every run, with faults, changing settings and any algorithm: each transition leaves its state through an enabled slot, goes to FAULT exactly on a fault, clears that slot's acknowledgement and the pending fields, if and only if it is not an algorithm reporting FAULT as an event; pending state and time are set together; and the pending state is never the current one unless an algorithm did that and the machine is in FAULT |
| EventMachine.TransitionsChain | src/bac_py/app/event_engine.py:203-218 | of two consecutive transitions of any run the second starts where the first ended |
| EventMachine.ProperExactly | src/bac_py/app/event_engine.py:121-177 | a transition is well formed if and only if it does not come from an algorithm reporting FAULT without a fault |
| EventMachine.FaultTripsAtOnce | src/bac_py/app/event_engine.py:123-131 | a fault moves a machine outside FAULT to FAULT in that very cycle if and only if transitions to fault are enabled, and otherwise changes nothing but the settings |
| EventMachine.NothingToDo | src/bac_py/app/event_engine.py:157-177 | a cycle that calls for the present state, or outside FAULT for what is not enabled, moves nothing and ends what is pending |
| EventMachine.PendingForCurrentExactly | src/bac_py/app/event_engine.py:124-147 | exactly when a cycle leaves the current state pending: in FAULT, where an algorithm reported FAULT as an event and its delay is running or its timer kept |
| EventMachine.FaultResultReentersFault | src/bac_py/app/event_engine.py:133-147 | a machine in FAULT whose algorithm reports FAULT moves from FAULT to FAULT |
| EventHistory.PendingIsHistory | src/bac_py/app/event_engine.py:179-201 | before every cycle of a run the pending fields name the one streak in progress and the time of its first cycle |
| EventHistory.DelayExactness | src/bac_py/app/event_engine.py:105-218 | never early, never late: cycle i fires to a target if and only if it asks for it and the streak for it began at least its delay ago, fault cycles and held targets being neutral, or if the target is FAULT and a fault trips the machine |
| EventHistory.DelayExactnessMonotone | src/bac_py/app/event_engine.py:105-218 | with a clock that never steps back, the target is entered if and only if some cycle of the running streak is at least the delay old |
| EventHistory.TransitionIsPunctual | src/bac_py/app/event_engine.py:121-201 | in results, faults and enables alone, for every state and target: the machine moves to the target at cycle i exactly when the demand for it has lasted since cycle j and cs[i].now - cs[j].now is at least the time delay, or for NORMAL the time delay to normal if there is one; faults do not interrupt a demand, nor do disabled targets in FAULT |
| EventHistory.ReturnIsPunctual | src/bac_py/app/event_engine.py:134-168 | without faults and with transitions to normal enabled, an alarm or FAULT returns to NORMAL exactly when the unbroken stretch of results none or NORMAL began at least that delay ago |
| EventHistory.FirstAlarmIsPunctual | src/bac_py/app/event_engine.py:140-177 | without faults, from NORMAL, from another alarm or out of FAULT: alarm t is entered at cycle i exactly when the unbroken stretch of results t began at least the time delay ago, and the transition is from the state the machine was in |
| EventHysteresis.EvaluateEnrollment | src/bac_py/app/event_engine.py:708-756 | one engine cycle is one step of the machine on the evaluator's answer to the machine's own state, or on NORMAL when inhibited |
| EventHysteresis.EvaluatesExactly | src/bac_py/app/event_engine.py:249-258 | HIGH_LIMIT if and only if the value is above the high limit, or the state is HIGH_LIMIT, the value is at least the limit less the deadband and not below the low limit; LOW_LIMIT if and only if it is not above the high limit and is below the low one, or the state is LOW_LIMIT and it is at most that limit plus the deadband; otherwise nothing |
| EventHysteresis.FloatingEvaluatesExactly | src/bac_py/app/event_engine.py:355-359 | the same with the limits at setpoint + high difference and setpoint - low difference |
| EventHysteresis.AlarmsExactly | src/bac_py/app/event_engine.py:729-748 | a fault-free, uninhibited, enabled machine in NORMAL with zero delay enters an alarm exactly when the sample lies beyond that limit |
| EventHysteresis.ReturnsExactly | src/bac_py/app/event_engine.py:729-748 | and leaves it exactly when the sample has come back by more than the deadband, or lies beyond the other limit |
| EventHysteresis.InhibitedIsNormal | src/bac_py/app/event_engine.py:742-745 | an inhibited sample counts as NORMAL whatever its value |
| EventHysteresis.LoopAlarmIsPunctual | src/bac_py/app/event_engine.py:708-756 | with any delay: the alarm is entered exactly when the unbroken stretch of samples beyond the limit began at least the time delay ago |
| EventHysteresis.BothEvaluatorsAreCovered | src/bac_py/app/event_engine.py:232-359 | OUT_OF_RANGE is the runs' evaluator at setpoint 0, and FLOATING_LIMIT is it at its own setpoint, so alarms depend on the error only |
| EventHysteresis.AlarmsAreBounded | src/bac_py/app/event_engine.py:232-258 | for every run, any delays, enables, faults and inhibition: (alarms - 1 - excused) * min(2 * deadband, high - low) is at most the variation of the error, an excuse being a fault entry or an inhibited return; a disabled side does not count |
| EventHysteresis.NoChatter | src/bac_py/app/event_engine.py:232-258 | without faults and inhibition, (alarms - 1) * width is at most the variation |
| CovManager.COVManager.SubscribeObject | src/bac_py/app/cov.py:148-205 | unknown objects change nothing; else the request is filed and its first notification sent, as CovOutcomes.ObjectRequest says in full |
| CovManager.COVManager.SubscribeProperty | src/bac_py/app/cov.py:308-378 | the same for one property, as CovOutcomes.PropertyRequest says in full |
| CovManager.COVManager.SubscribePropertyMultiple | src/bac_py/app/cov.py:380-451 | the items of a request one after the other up to the first that raises, keeping those before it; which items those are and what each does is said by CovOutcomes.ItemsExactly and RequestServesItems |
| CovManager.COVManager.Unsubscribe | src/bac_py/app/cov.py:207-231 | the key leaves master and bucket, an emptied bucket goes, exactly its timer is cancelled; unknown keys change nothing |
| CovManager.COVManager.RunTimer | src/bac_py/app/cov.py:765-773 | a due timer takes its key out of master and bucket |
| CovManager.COVManager.RemoveObjectSubscriptions | src/bac_py/app/cov.py:283-306 | both tables keep exactly what is about other objects, in order, and so do the timers |
| CovManager.COVManager.Shutdown | src/bac_py/app/cov.py:269-281 | cancelling every stored subscription's timer leaves no timer armed |
| CovManager.COVManager.CheckAndNotify | src/bac_py/app/cov.py:233-257 | the check sends to exactly the keys that a scan of both whole tables picks, in that order, remembers exactly their new values and touches nothing else, also when it raises part way; whom it picks, and what it sends, is said by CovOutcomes.CheckReportsNews and MessagesSay |
| CovManager.CheckBuckets | src/bac_py/app/cov.py:489-518 | looking only into the object's and the property's bucket gives the outcome of the full scan |
| CovManager.FiringIsRemoval | src/bac_py/app/cov.py:765-773 | an armed timer's key is stored, its subscription alone holds the handle, has a lifetime above zero, and the deadline is its time of subscribing plus that lifetime |
| CovTables.InsertKeepsAgreement | src/bac_py/app/cov.py:192-193 | filing or replacing keeps the index equal to the master's groups, order included |
| CovTables.RemoveKeepsAgreement | src/bac_py/app/cov.py:222-230 | so does removing a key and, with its last key, its bucket |
| CovTables.RemoveGroupKeepsAgreement | src/bac_py/app/cov.py:290-306 | so does dropping a bucket with all its keys |
| CovTables.BucketsMirrorMaster | src/bac_py/app/cov.py:139-146 | a bucket exists exactly for the groups that occur, is not empty, and holds all the master's keys of its group, in the master's order, with the same subscriptions |
| CovRules.BucketScanIsFullScan | src/bac_py/app/cov.py:246-257 | scanning one group's keys is scanning all keys |
| CovRules.ScanPicksByRule | src/bac_py/app/cov.py:662-704 | a scan notifies exactly the concerned subscriptions whose rule fires on what they remembered before it, in order, up to the first at which comparing or reporting raises, updates exactly those, and completes exactly when there is no such one |
| CovRules.NewsIsReported | src/bac_py/app/cov.py:662-704 | the rule fires if and only if there is news: for an object subscription other status flags (property 111), or a watched value (property 85, or its own) other than the remembered one, unless the object is analog, both are numbers and they are less than a positive increment apart, which is the subscription's own if it is to a property and has one and the object's (property 22) otherwise |
| CovRules.AnyChangeIsNews | src/bac_py/app/cov.py:703-704 | for a binary or multistate object, or without a positive increment, any other value is news, as are other status flags for an object subscription |
| CovRules.BreaksExactly | src/bac_py/app/cov.py:246-254 | looking at a subscription raises if and only if its remembered value does not compare, or there is news and its process identifier needs five octets, or what it watches is refused, or no notification can be handed over |
| CovRules.SecondScanIsSilent | src/bac_py/app/cov.py:233-257 | scanning again with the object unchanged sends and changes nothing, also when the scan breaks off |
| CovRules.RateStep | src/bac_py/app/cov.py:233-257 | one check of an analog subscription with increment c, with changing status flags: the travel of the value and the change of flags pay for a notification and the new distance, and the last reported value is less than c away if and only if it was notified or the value had not changed by c |
| CovRules.ObjectIsReached | src/bac_py/app/cov.py:246-254 | a check gets as far as an object subscription if and only if looking at it, and at those to the same object ahead of it, raises nothing |
| CovRules.CutShortCheckGoesStale | src/bac_py/app/cov.py:246-257 | a present value the encoder refuses leaves its object subscription stale, and a property subscription behind it, however far off |
| CovRules.OversizedProcessGoesStale | src/bac_py/app/cov.py:246-254 | a subscription stored with the process identifier 2 ** 32 makes the check of every change raise, and the one behind it goes stale although its value encodes |
| CovRuns.EveryRunIsValid | src/bac_py/app/cov.py:132-306 | index agreement and capacities hold after any sequence of operations, those that raise included; exactly the limited subscriptions hold a timer handle, no two the same, and every armed timer is that of the subscription stored at its key, due at that subscription's own end |
| CovRuns.ArmedExactly | src/bac_py/app/cov.py:168-202 | over every run the timer of a stored subscription is armed if and only if its lifetime is above zero and no request for its key has raised on its lifetime since the operation that made it |
| CovRuns.OverlongLifetimeDisarms | src/bac_py/app/cov.py:168-193 | a subscription with a lifetime of a minute that is left stored without its timer |
| CovRuns.BucketsAgreeOverRuns | src/bac_py/app/cov.py:132-146 | the same said of one bucket: the filtered master in its order, never empty, no table over capacity |
| CovRuns.ExpiryRemovesItsOwner | src/bac_py/app/cov.py:196-202 | in every run a timer that fires removes exactly the subscription made by the operation that armed it, and nothing else; it is due at that operation's own time plus its lifetime, and fires then or later |
| CovRuns.ReplacedTimerNeverFires | src/bac_py/app/cov.py:168-171 | after a request for its key, whether it replaces the subscription or raises before that, a subscription's timer is never armed again |
| CovRuns.SecondCheckIsSilent | src/bac_py/app/cov.py:233-257 | after a check the same check sends and changes nothing |
| CovRuns.NotificationsAreRateLimited | src/bac_py/app/cov.py:233-257 | over any run of operations during which an analog subscription stays stored: its entries in the log of sent notifications, less one for each change of the status flags it looks at, times its increment, are at most the variation of the value seen at its checks, also when checks raise part way |
| CovRuns.RateSinceSubscribing | src/bac_py/app/cov.py:178-205 | the same since the subscription was made, from the value captured then |
| CovRuns.AddIsSubscribed | src/bac_py/app/cov.py:148-205 | subscribing, with the notification it sends, is a step of these runs |
| CovRuns.RequestIsRun | src/bac_py/app/cov.py:380-451 | a request for several properties is a run of such steps, one for each reference up to the first that raises |
| CovRuns.ChecksKeepFresh | src/bac_py/app/cov.py:233-257 | in such a run, after a check that looks at the subscription, the value last reported is less than an increment off if and only if the check got as far as it or the value had not changed by one |
| CovRuns.ObjectSubscriptionsStayFresh | src/bac_py/app/cov.py:246-254 | for an object subscription that is: if and only if looking at it, and at those to its object ahead of it, raises nothing, or the value had not changed by an increment |
| CovOutcomes.ObjectRequest | src/bac_py/app/cov.py:165-205 | no space if and only if the key is new and the table is full, and then nothing changes; a lifetime of 2 ** 1024 - 2 ** 970 or more raises and only takes the earlier timer; otherwise the key keeps its place or comes last, the new subscription remembers the present value and status flags read, a lifetime L above zero arms one timer due at exactly now + L and any other none, all other keys and timers stay as they were, and one notification with those values is sent unless it cannot be, which raises |
| CovOutcomes.PropertyRequest | src/bac_py/app/cov.py:325-378 | the same for one property, with the increment asked for and the property's own value |
| CovOutcomes.FloatLimit | src/bac_py/app/cov.py:189 | the least integer whose conversion to a float overflows is 2 ** 1024 - 2 ** 970 |
| CovOutcomes.ItemsExactly | src/bac_py/app/cov.py:396-404 | a request for several properties looks up every object it names and subscribes to every reference listed for it, in the order given, and nothing else |
| CovOutcomes.RequestServesItems | src/bac_py/app/cov.py:396-451 | its items are served one after the other, each like a request for that property, up to the first that raises, whose error is the answer |
| CovOutcomes.RemovedForgets | src/bac_py/app/cov.py:207-231 | cancelling takes the one key and its timer out, and leaves all others as they were and in their order |
| CovOutcomes.FiredForgets | src/bac_py/app/cov.py:765-773 | so does a timer that fires |
| CovOutcomes.ObjectForgets | src/bac_py/app/cov.py:283-306 | deleting an object takes out exactly the keys about it, with their timers |
| CovOutcomes.MessagesSay | src/bac_py/app/cov.py:706-764 | the notifications of a check carry, in order, each subscription's key and whether it is confirmed, the value it watches and the status flags as read at the check |
| CovOutcomes.CheckReportsNews | src/bac_py/app/cov.py:233-257 | a check notifies a subscription if and only if the write is about what it watches, there is news for it, and nothing up to it raises, object subscriptions first and each kind in its order; then it remembers the value, and an object subscription the flags, as read, and otherwise what it did before |
| CovOutcomes.CheckCompletes | src/bac_py/app/cov.py:246-257 | a check comes to its end if and only if nothing it looks at raises |
| CovOutcomes.CompletedCheckIsExact | src/bac_py/app/cov.py:703-704 | after such a check every subscription the write is about remembers exactly the value of an object that is not analog, and its flags |
| Schedules.ResolveTimeValues | src/bac_py/app/schedule_engine.py:206-224 | the scan finds the first listed of the latest entries not after now, and nothing exactly when all are later |
| Schedules.ResolveExceptionSchedule | src/bac_py/app/schedule_engine.py:161-203 | the pruned scan finds the first listed exception of least priority number up to 16 that applies and has a value now |
| Schedules.Resolve | src/bac_py/app/schedule_engine.py:113-159 | the resolution, loops included, is one function of the schedule, the day and the time, which the next four rows determine |
| Schedules.OutsideIsDefault | src/bac_py/app/schedule_engine.py:128-134 | outside the effective period the value is the default |
| Schedules.ExceptionPrevails | src/bac_py/app/schedule_engine.py:136-144 | inside it, the value is that of the entry in force of the exception that decides: the first listed of least priority number among those that apply and have an entry in force, whatever the week says |
| Schedules.WeekdayPrevails | src/bac_py/app/schedule_engine.py:146-156 | if no exception decides, the value is that of the entry in force in the list of the day, Monday first |
| Schedules.DefaultOtherwise | src/bac_py/app/schedule_engine.py:158-159 | and if that list has started nothing either, or does not exist, the default |
| Schedules.ComparedWithClock | src/bac_py/app/schedule_engine.py:214-220 | when an entry's time is not after the clock, in hundredths of a second since midnight, unspecified parts counting as zero |
| Schedules.ConstantBetweenEntries | src/bac_py/app/schedule_engine.py:206-224 | the value is the same at two times with no entry after the first and up to the second |
| Schedules.EntryTakesEffect | src/bac_py/app/schedule_engine.py:206-224 | at its own time an entry, the first listed for that time, is the current one |
| Schedules.BeatenExceptionIsIrrelevant | src/bac_py/app/schedule_engine.py:178-181 | leaving out an exception that another one beats, as the pruning does, never changes the answer |
| ScheduleEngine.Engine.ApplyValue | src/bac_py/app/schedule_engine.py:228-270 | the present value is always set; on change the value is remembered and attempted once through each existing target in list order |
| ScheduleEngine.Engine.EvaluateSchedule | src/bac_py/app/schedule_engine.py:113-159 | after a cycle the present value is the resolved value |
| ScheduleEngine.WritesAreChanges | src/bac_py/app/schedule_engine.py:228-270 | over every run of any number of schedules, while objects are created and deleted, the values attempted through each entry of a target list are exactly its schedule's resolved values with consecutive repeats removed, less those that were new while the target did not exist, starting over when the engine is stopped |
| ScheduleEngine.NothingIsMissed | src/bac_py/app/schedule_engine.py:228-270 | through a target that exists whenever a value is applied: exactly the resolved values with consecutive repeats removed |
| ScheduleEngine.MissingTargetsAreSkipped | src/bac_py/app/schedule_engine.py:250-270 | every attempt is the doing of one event: to the reference that entry of the schedule's target list names, with the schedule's value and priority, and never to an object that does not exist at the time |
| ScheduleEngine.AttemptsInOrder | src/bac_py/app/schedule_engine.py:250-270 | an event adds its attempts behind the earlier ones, in the order of the target list |
| Hierarchy.Traversal.Recurse | src/bac_py/app/client.py:1318-1354 | what one visit adds to the shared result and visited set, and that it raises exactly when reading a view it expands is rejected or aborted, or yields what does not decode |
| Hierarchy.TraverseHierarchy | src/bac_py/app/client.py:1285-1316 | the traversal is a visit of the root with nothing visited; a read that raises what is not caught loses the result |
| Hierarchy.TraversalIsComplete | src/bac_py/app/client.py:1318-1354 | with a depth of at least the number of reachable views, exactly the reachable views are expanded, each once, the result holds exactly their subordinate lists, each in its own order, and the order is the same for every such depth; it raises exactly when reading a reachable view is rejected or aborted, or yields what does not decode |
| Hierarchy.TraversalIsSound | src/bac_py/app/client.py:1318-1354 | for any depth and any graph, cyclic or not, no view is expanded twice, everything returned is a subordinate of a reachable view, and each expanded list keeps its order |
| Hierarchy.NothingIsMissing | src/bac_py/app/client.py:1318-1354 | at such a depth the result holds every object at least as often as any reachable view lists it |
| Hierarchy.TraversalDescendsAtOnce | src/bac_py/app/client.py:1347-1354 | depth first, at any depth: every expanded view below the root is followed at once by what it lists first |
| Hierarchy.ReachableViewsAreReachable | src/bac_py/app/client.py:1318-1354 | the reachable views are a finite set, the ones some path of views leads to |
| Hierarchy.ShallowerDepthMisses | src/bac_py/app/client.py:1329-1332 | for every k there is a hierarchy of k views that every smaller depth traverses incompletely |
| ReadRange.PagingForwardReassembles | src/bac_py/app/server.py:985-1011 | paging from index 1 while more items are announced returns the list, in max(1, ceil(n / c)) requests |
| ReadRange.PagingBackwardReassembles | src/bac_py/app/server.py:985-1011 | paging from the last index with a negative count until the first item is included returns the same list in as many requests |
| ReadRange.RequestsIsCeiling | src/bac_py/app/server.py:985-1011 | the number of requests counted above is the least positive one that can carry n items c at a time |
| ReadRange.NegativeCountMatchesPositive | src/bac_py/app/server.py:994-996 | a negative count at an existing index is the positive window of the same items, flags included |
| ReadRange.WindowItems | src/bac_py/app/server.py:985-999 | a window holds exactly the requested positions, in order |
| ReadRange.FlagsExactly | src/bac_py/app/server.py:998-1011 | each end flag tells whether the window includes that end, if and only if the request is not one of the listed empty windows |
| ReadRange.EmptyWindowsClaimEnds | src/bac_py/app/server.py:998-1011 | two requests whose flags claim ends their empty windows do not include |
| BitStrings.BitStringFromBits | src/bac_py/app/server.py:132-148 | reading any position back with the audit filter's arithmetic tells whether it is in the set; at most 7 unused bits, length the highest position plus one |
| BitStrings.RepresentationIsUnique | src/bac_py/app/server.py:143-148 | the result does not depend on the order in which the set is walked |
| BitStrings.RepresentationIsMinimal | src/bac_py/app/server.py:140-142 | no shorter bytes have the same bits set, and the unused bits are zero |
| BitStrings.SetBit | src/bac_py/app/audit.py:182-190 | setting a bit of a byte is seen by the reader at that bit and nowhere else |
| BitStrings.TestBitExactly | src/bac_py/app/audit.py:182-190 | position 0 is the mask 0x80 of the first byte and position 7 its 0x01, and so on for each byte |
| WriteMultiple.Server.HandleWritePropertyMultiple | src/bac_py/app/server.py:855-941 | a request that fails validation changes nothing and reports the first failing check; otherwise the writes are executed in order |
| WriteMultiple.Server.WriteOne | src/bac_py/app/server.py:914-939 | one item: decode, write, COV check, audit record, and where each of the three ways to raise leaves off |
| WriteMultiple.ReportsFirstFailure | src/bac_py/app/server.py:882-911 | the error reported is that of a failing check before which every check of the request passes |
| WriteMultiple.ValidExactly | src/bac_py/app/server.py:882-911 | validation passes if and only if every object exists, device 4194303 meaning the device itself, and every property of every write is defined and not read-only, or is the Present_Value of an object whose Out_Of_Service is true |
| WriteMultiple.RefusedExactly | src/bac_py/app/server.py:882-911 | otherwise the error is about the first specification that is not so: an unknown object, or for the first of its properties that cannot be written, unknown property or write access denied |
| WriteMultiple.ItemsExactly | src/bac_py/app/server.py:913-916 | the second pass is over every write of every specification, to the object it is about, in request order, and nothing else |
| WriteMultiple.AcceptedRequestIsSequential | src/bac_py/app/server.py:913-941 | when every value decodes, every write is accepted and no COV check raises, the result is the sequential application of all writes with one COV check and one audit record each, in order |
| WriteMultiple.StoppedRequest | src/bac_py/app/server.py:913-939 | otherwise exactly the items before the first that raises are complete, and that one is half done: nothing of a value that does not decode, whatever a refused write did, the write and the check but no record when the check raises |
| WriteMultiple.AtomicExactly | src/bac_py/app/server.py:863-865 | a request that raises leaves the objects as they were if and only if the writes before the raising item amount to nothing, or, when its COV check raised, those up to and including it, or, when its write was refused, those before it with what that one did |
| WriteMultiple.NotAlwaysAtomic | src/bac_py/app/server.py:914-921 | a validated request whose second value does not decode, and whose first write stays |
| WriteMultiple.RaisingCheckIsNotAtomic | src/bac_py/app/server.py:928-939 | integer-value 1 := -5 and analog-value 1 := 1.0, where the check for the first raises: the first write stays without a record, the second never happens |
| ListElements.HandleAddListElement | src/bac_py/app/server.py:1396-1461 | the checks in order, and the list extended by the decoded elements; a missing list is created even when decoding fails |
| ListElements.HandleRemoveListElement | src/bac_py/app/server.py:1463-1527 | the checks in order, and each element's first occurrence removed |
| ListElements.RemovalIsOnePass | src/bac_py/app/server.py:1523-1526 | removing element by element is one pass that drops each element as often as it was asked for, so the order of the request does not matter |
| ListElements.RemovalConserves | src/bac_py/app/server.py:1523-1526 | what is left is a subsequence whose multiset is the saturating difference |
| ListElements.AddThenRemove | src/bac_py/app/server.py:1459-1460 | adding elements and removing them again restores the multiset |
| ListElements.AddThenRemoveFresh | src/bac_py/app/server.py:1523-1526 | and the list itself, when none of the elements was in it before |
| ListElements.OrderMayChange | src/bac_py/app/server.py:1523-1526 | a list whose order is changed by adding and removing one element |
| BackupRestore.DeviceObject.ValidatePassword | src/bac_py/app/server.py:1032-1051 | a password is accepted exactly when it is the configured one, or when there is none on either side |
| BackupRestore.DeviceObject.HandleReinitializeDevice | src/bac_py/app/server.py:1077-1178 | a password failure if and only if the passwords differ, else an invalid state if and only if the request is out of its place; a refused request changes nothing |
| BackupRestore.RequestsExactly | src/bac_py/app/server.py:1105-1171 | for all eight requests in all five states: which are out of place, what status, state and restore time an accepted one leaves, and that cold start, warm start and activate change nothing |
| BackupRestore.EveryRunFollowsProtocol | src/bac_py/app/server.py:1105-1171 | from IDLE, the accepted backup and restore requests of any run form a prefix of (START_BACKUP END_BACKUP or START_RESTORE then END_RESTORE or ABORT_RESTORE) repeated, and the status matches the state |
| BackupRestore.EveryProtocolWordIsAccepted | src/bac_py/app/server.py:1105-1171 | conversely every such word is accepted in full |
| CommunicationControl.Application.SetDccState | src/bac_py/app/application.py:304-328 | the earlier timer is cancelled, and one armed exactly for a limited disable, due 60 seconds for each minute of it from now |
| CommunicationControl.Application.DccTimerExpired | src/bac_py/app/application.py:1061-1065 | the callback enables communication and forgets the handle |
| CommunicationControl.Application.RunDueTimers | src/bac_py/app/application.py:325-328 | running the due timers in any order |
| CommunicationControl.Application.UnconfirmedRequest | src/bac_py/app/application.py:949-962 | an unconfirmed request is sent under ENABLE only |
| CommunicationControl.Application.DispatchRequest | src/bac_py/app/application.py:1185-1195 | under DISABLE only the two allowed services are dispatched |
| CommunicationControl.Application.HandleUnconfirmedRequest | src/bac_py/app/application.py:1280-1297 | which unconfirmed requests are dispatched in which state |
| CommunicationControl.StateIsInForce | src/bac_py/app/application.py:304-328 | over every run, however late the loop runs its timers: at most one timer is armed, it is the latest request's own, and the state is the latest request's until its own time ran out and ENABLE after that |
| CommunicationControl.GatesFollowRequests | src/bac_py/app/application.py:1067-1073 | what passes the three gates as long as a request is in force |
| CommunicationControl.GatesOpenOtherwise | src/bac_py/app/application.py:1061-1065 | before any request, and once the latest has run out, everything passes |
| CommunicationControl.DisableHoldsForItsDuration | src/bac_py/app/application.py:304-328 | with a clock that never steps back, a disable for n minutes holds for all of 60 * n seconds |

## Left out

- Subscriptions as heap objects: a subscription is a record reached through its identity, an index into the sequence of all subscriptions made, so that master and bucket share it; the Python reference itself is not modelled.
- Subscribing, unsubscribing and the loops of the COV manager work on local copies of its fields that are stored at the end; nothing else runs in between in the original either.
- Wire encoding of requests and notifications, and the time remaining in a notification; a send is an entry in a log. Which references of an object cannot be reported (a value the encoder refuses, a property identifier outside the enumeration), which subscriptions cannot be notified although their process identifier fits (a remaining time over 32 bits), and for which comparing raises (an integer too large for a float), are inputs of every check.
- Remembered values as references: a list that is written in place at one index also changes in the subscription that remembers it, so that such a write is never notified; the model remembers a copy.
- The COV request checks of the server handlers in front of the manager (missing parameters, cancellation requests, COV not supported).
- Interleaving of coroutines: a handler or a cycle runs to its end; timers run between them.
- Copying an object's EVENT_STATE into a machine that is in NORMAL (intrinsic reporting): an EVENT_STATE written from outside is not modelled.
- Event algorithms other than OUT_OF_RANGE and FLOATING_LIMIT: their answers are arbitrary inputs of the machine, which is all the machine lemmas need.
- Notification routing, event time stamps, recipient filters and priorities.
- Calendar objects and date matching: whether an entry, a range or a calendar applies today is an input of schedule resolution.
- The outcome of a scheduled write: failures are swallowed by the original, so only the attempts are recorded.
- Which audit reporters record an operation: one call per write is recorded.
- What an object does with a write (coercion, priority arrays, name index, write callbacks): an arbitrary function of the objects, the write and the value, which may fail and still leave traces.
- Stopping the application: it cancels the re-enable timer of a communication disable without changing the state.
- The services bit string that PICS reads: it uses other positions than the ones registered.
- NaN, infinities and rounding: values are `real`, and an absent limit stands for a disabled side.
- Transports, sockets, routing, segmentation and transaction state machines.
