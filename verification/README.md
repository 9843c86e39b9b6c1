# Verification of the container-to-MQTT bridge

The program in `cmha/` reads the state of containers and publishes it over MQTT for Home Assistant. It runs for as long
as the machine does, through lost connections, containers that come and go, and commands that arrive at any time. This
project models the parts that must agree with one another through all that, and proves what they keep.

* **The change-suppressing publisher** (`Topics`, `MessageCache`, `CacheRuns`, `DeviceReadings`, `EntityProducer`). A pass
  over all devices merges their readings, keeps their errors, and publishes only payloads that differ from the last ones
  recorded; the discovery stream purges records while passes run. Reference: the publisher that publishes every reading.
* **Cancellation** (`Cancellation`, `CancellationProtocol`). Sources, tokens and waits; first as objects, then as a state
  machine over every interleaving of the atomic reads, stores, lock sections and notifications.
* **Sessions and the connection** (`Publishing`, `Connection`, `Bridge`, `BridgeRuns`, `MessageTraffic`, `StopFlags`).
  The three-valued connection flag, the one-slot channel that drops unread messages, the manager that starts and stops
  one publishing task per session, and the shared word of stopped-task flags. `Bridge` puts event loop, channel,
  consumer, sessions with their caches, and what subscribers hold into one machine whose steps come in any order, and
  `BridgeRuns` states what follows in terms of the steps alone. Where `Publishing` has one method for a status change,
  `Bridge` takes it apart at its awaits (`Draining`, `Initialising`), so that everything else can happen there;
  `MessageTraffic` shows that the objects take the machine's steps.
* **The registry and discovery** (`DeviceModel`, `Orders`, `Dispatch`, `Registries`, `Discovery`, `DiscoveryRuns`,
  `RemovalRuns`). Keyed devices kept in step with the container engine's listings, the events that report it, command
  dispatch over any visiting order, and what the removal of a device does to the records of its readings.
* **Handlers** (`Debounce`, `CpuUsage`, `LogRequests`). The debounce window, CPU percentages from pairs of samples, and the
  flag between the log sensor and its button.

`Wrappers` holds `Option` and `Result`. In every state machine a step that cannot happen leaves the state as it is, so a
claim over all sequences of steps is a claim over all runs. Where the program iterates a hash map, the model visits the
keys in an arbitrary order; where it awaits, selects or calls out, the model takes an arbitrary outcome. Times,
listings, readings, MQTT events, purges, cancellations and what handlers answer are parameters.

## What turned out not to hold

Each of these has a lemma with the exact condition, or with the run that shows it.

* A `wait_on` that has read its flag unset but has not yet made its `notified()` misses a whole cancellation
  (`WakeUpCanBeLost`, `RegistrationDecides`).
* Tokens made by `new_with_a_token`, and tokens created after the cancellation, are never flagged: only waits already
  registered hear it (`WaitAfterCancelFailsIff`).
* A command that arrives while a connection message is unread replaces it, and the bridge stays out of step with its
  connection flag until the next connection message (`CommandHidesConnectionIff`, `ConnectionCanBeMissed`,
  `MissedConnectionStaysMissed`, `QuietBridgeAgreesIff`).
* A session can still be cancelled if and only if the consumer of the channel has not failed, and a command makes it fail
  if and only if the dispatch to the devices does (`SessionCanBeCancelledIff`, `CommandEndsConsumerIff`,
  `ClaimantEndsConsumerIff`).
* A request to stop is heard if and only if no command, acknowledged connection or lost connection takes its place in the
  slot first (`StopIsHeardIff`).
* A publish that bypasses the cache, or one that fails, can leave subscribers with an old payload for as long as the
  reading does not change (`BypassKeepsStepIff`, `PartialDeliveryKeepsStepIff`, `StaleUntilForgotten`).
* A stop-task flag can be lost, and `stop` never leaves its loop when both flags are set (`FlagLostIff`, `StopLeavesIff`);
  its second load of the flags can differ from the first (`SecondLoadDiffersIff`).
* A discovery tick whose second listing fails has already added devices, and no later event names one of them until a
  listing misses it (`HeldContainerIsToldIff`, `FailedTickIsToldIff`, and over runs in which ticks succeed and fail,
  `EventsTellMixedRunIff`).
* An initial container device whose identifier is not its name is added a second time, and its first entry can ever be
  removed if and only if a removable device has its key as source id (`InitialWellKeyedIff`,
  `MiskeyedContainerIsDoubled`, `DeviceCanBeRemovedIff`).
* A pass under way when its device is removed records again what it has yet to handle; when the device comes back with
  the same readings, those are not published (`RemovalHidesReturnIff`, `ReturnIsPublishedIff`).
* The visiting order makes no difference to a command if and only if no two devices claim its topic
  (`OrderIrrelevantIff`, `ContainerOrderIrrelevantIff`).
* The weighted CPU percentages overstate the time used when a total goes back (`PercentagesTelescopeIff`).
* A purge also drops records of the removed device's *other* entities whose ids extend a removed id; never those of a
  device with another identifier (`PurgeMeetsExactly`, `PurgeIsPrecise`).

Where code and comments disagree the code is modelled: the comment at `cmha/src/devices/mod.rs:284` promises the
identifiers of the removed devices, the code returns the devices themselves.

## Model

| member | source | states |
|---|---|---|
| CacheRuns.CacheRefinesPublishEverything | cmha/src/update_engine.rs:240-275 | Main result: after any run of passes, purges between or inside passes, and new sessions, subscribers hold exactly what publishing every reading would have left them, and the cache agrees with them on every topic it records |
| CacheRuns.RunRefines | cmha/src/update_engine.rs:240-275 | The same from any cache that agrees with what subscribers hold |
| CacheRuns.StepRefines | cmha/src/update_engine.rs:240-275 | One pass, purge or new session keeps cache and subscribers in agreement and publishes no less than reading all would |
| CacheRuns.PassInProgressAgrees | cmha/src/update_engine.rs:246-273 | In the middle of a pass, purges included, the cache agrees with what was published and what the pass has gathered so far |
| CacheRuns.FreshSessionPublishesAll | cmha/src/update_engine.rs:284 | With a session's empty cache, the topics and payloads published since it began are exactly those read since |
| CacheRuns.TrafficIsTheChanges | cmha/src/update_engine.rs:248-272 | While nothing purges a topic, the payloads published on it are exactly the changes in the payloads read |
| CacheRuns.NoRepeatedPublish | cmha/src/update_engine.rs:249-254 | No payload is published twice in succession on a topic that nothing purges |
| CacheRuns.RepeatedReadingIsSilentIff | cmha/src/update_engine.rs:249-254 | A pass that repeats the readings of the one before publishes nothing at all if and only if no topic of it was purged since its entry was handled |
| CacheRuns.RemovalRepublishesItsDeviceOnly | cmha/src/update_engine.rs:150-166 | In the first pass that begins after a removal's purge, every reading of a removed entity is published, and devices with other identifiers are filtered as if nothing had been removed |
| CacheRuns.PassUnderWayRecordsAgain | cmha/src/update_engine.rs:162-166 | Whatever was purged before it handled an entry, a pass records it again, and the next pass publishes the same reading if and only if a purge met it afterwards |
| CacheRuns.BypassKeepsStepIff | cmha/src/device_manager.rs:329-334 | A command reply published past the cache keeps it in step if and only if it repeats the payloads recorded |
| CacheRuns.PartialDeliveryKeepsStepIff | cmha/src/device_manager.rs:285-299 | A pass published only in part keeps the cache in step if and only if subscribers already held what was lost |
| CacheRuns.StaleUntilForgotten | cmha/src/update_engine.rs:248-263 | A recorded payload that subscribers miss reaches them, while the reading stays the same, if and only if a pass reads the topic after the cache has forgotten it |
| CacheRuns.OnceHeldAlwaysHeld | cmha/src/update_engine.rs:248-263 | While the reading stays the same, a payload held is held for good |
| CacheRuns.BypassLeavesStale | cmha/src/device_manager.rs:321-334 | A command reply that differs from the record stays visible until the cache forgets the topic and it is read again |
| MessageCache.LastMessages.FilterData | cmha/src/update_engine.rs:240-275 | The whole pass: it fails if and only if a wait for the lock is refused; what it publishes and the cache it leaves are exactly those of the topics purged up to and after the wait for their entry, for the order in which the entries came |
| MessageCache.LastMessages.FilterEntries | cmha/src/update_engine.rs:246-273 | The loop handles the entries in some order, each once, up to a refused wait if there is one, with exactly the purges of the schedule before each |
| MessageCache.LastMessages.TakeTurn | cmha/src/update_engine.rs:247-272 | One wait, with all its purges, and one entry |
| MessageCache.PassedIs | cmha/src/update_engine.rs:240-275 | Handling the entries one by one with purges in between comes to publishing at once what differs from the cache found without the topics purged up to their entry, and recording everything but the topics purged after it |
| MessageCache.DropsAre | cmha/src/update_engine.rs:150-166 | Those topics are all met by some purge of the schedule, and off the entries they are all that are |
| MessageCache.PrefixesAre | cmha/src/update_engine.rs:150-166 | The prefixes in force are those of every purge scheduled before a wait, and no others |
| MessageCache.LastMessages.FilterEntry | cmha/src/update_engine.rs:248-272 | One entry is published exactly when it is new or differs, and is recorded either way |
| MessageCache.LastMessages.Retain | cmha/src/update_engine.rs:162-166 | The purge keeps exactly the topics that no removed path is a prefix of |
| MessageCache.LastMessages.LetDiscoveryRun | cmha/src/update_engine.rs:150-166 | Purges one after the other drop exactly what one with all their prefixes would |
| MessageCache.PurgeKeepsPass | cmha/src/update_engine.rs:240-275 | A purge in the middle of a pass keeps the account of what the pass has published and recorded |
| MessageCache.EntryKeepsPass | cmha/src/update_engine.rs:246-273 | Handling one entry keeps that account |
| DeviceReadings.MergeResults | cmha/src/update_engine.rs:196-220 | The accumulator always has the merged map in front and the errors behind it; the branches marked as bugs cannot be reached |
| DeviceReadings.MergedIff | cmha/src/update_engine.rs:199-220 | A topic is merged if and only if some device reads it |
| DeviceReadings.LastReadingWins | cmha/src/update_engine.rs:214 | With the payload of the last device that reads it |
| DeviceReadings.GetEventsFromDevices | cmha/src/update_engine.rs:178-238 | Every input error comes out exactly once, followed by one filtered result of the right-biased union of the readings, exactly as the filter leaves it with the purges of the schedule; the filter fails if and only if a wait for the lock is refused; no devices gives one empty map |
| DeviceReadings.EveryErrorKeptOnce | cmha/src/update_engine.rs:199-220 | However `swap_remove` and `insert` move them, the errors kept are the errors that came in |
| DeviceReadings.KeptErrors | cmha/src/update_engine.rs:196-237 | An error comes out of a pass if and only if a device answered it |
| DeviceReadings.SwapRemoveRotates | cmha/src/update_engine.rs:206-215 | Taking the first element out with `swap_remove` brings the last error to the front |
| DeviceReadings.SwapRemoveIs | cmha/src/update_engine.rs:206 | `swap_remove(0)` puts the last element in place of the first and keeps the others |
| DeviceReadings.GetEntitiesData | cmha/src/devices/devices.rs:140-150 | The initial reading of all devices fails with the first error, and without one reads what a periodic pass merges |
| EntityProducer.ProducePass | cmha/src/update_engine.rs:53-72 | A pass publishes nothing if and only if it brings the error of a cancellation; otherwise it publishes and records exactly what the purges of its schedule and the order of its entries make of it |
| EntityProducer.TakeTurn | cmha/src/update_engine.rs:47-72 | A turn ends the loop if and only if its wait is refused or its pass is cancelled; otherwise all its purges and its pass are exactly one step of a filter run |
| EntityProducer.EndsIff | cmha/src/update_engine.rs:49-71 | A turn ends the loop if and only if its wait is refused, a device was cancelled, or a wait for the lock of an entry that some device reads is refused; other errors leave it running |
| EntityProducer.PublishedIff | cmha/src/update_engine.rs:150-166 | A turn publishes a reading if and only if it differs from the record when the turn began, or a purge before the pass, or before the wait for its entry, met its topic |
| EntityProducer.ProduceEntityUpdates | cmha/src/update_engine.rs:38-75 | A session publishes one batch per turn up to the first that ends it, no fewer; the batches are the emissions of exactly the run that the turns' purges and the orders of the entries make, and replay to exactly the readings of those passes |
| EntityProducer.BatchesAre | cmha/src/update_engine.rs:38-75 | Batch by batch over a whole session, a reading is published if and only if it differs from the record, or some purge since the turn began, up to the wait for its entry, met its topic |
| EntityProducer.PassPublishes | cmha/src/update_engine.rs:53-66 | Adding a finished pass to both histories keeps them equal and the cache in agreement |
| Topics.TopicParsesBack | cmha/src/devices/mod.rs:226-249 | With '/'-free names a topic splits into exactly its device, its path and its kind (section 4.7.1.1 of MQTT Version 5.0) |
| Topics.TopicsCoincide | cmha/src/devices/mod.rs:226-249 | Two topics are equal if and only if device, path and kind are |
| Topics.TopicsAre | cmha/src/devices/mod.rs:226-249 | The levels of the topics of an entity, by kind |
| Topics.LevelsOfJoin | cmha/src/devices/mod.rs:243-249 | Splitting into levels undoes joining |
| Topics.JoinOfLevels | cmha/src/devices/mod.rs:243-249 | Joining levels undoes splitting, for every string |
| Topics.PrefixMeets | cmha/src/update_engine.rs:162-166 | A removed entity's path is a prefix of exactly the topics of its own device whose path extends its id |
| Topics.PurgeMeetsExactly | cmha/src/update_engine.rs:150-166 | A topic is purged if and only if a removed entity of the same device has an id that its path extends |
| Topics.PurgeIsPrecise | cmha/src/update_engine.rs:150-166 | Every topic of a removed entity is purged, of any item and kind, and no topic of a device with another identifier |
| Cancellation.CancellationTokenSource.Cancel | cmha/src/cancellation_token.rs:61-89 | The first call flags every listed token and wakes every registered waiter; later calls change nothing |
| Cancellation.CancellationTokenSource.CreateToken | cmha/src/cancellation_token.rs:91-100 | The token joins the list unflagged and shares the notifier, whether or not the source is cancelled |
| Cancellation.CancellationTokenSource.NewWithAToken | cmha/src/cancellation_token.rs:37-59 | The token shares the notifier but is not in the list of the source |
| Cancellation.CancellationTokenSource.constructor | cmha/src/cancellation_token.rs:27-35 | A new source has no tokens, no waiters and is not cancelled |
| Cancellation.CancellationToken.Cancel | cmha/src/cancellation_token.rs:136-138 | The flag is set |
| Cancellation.CancellationToken.BeginWait | cmha/src/cancellation_token.rs:143-155 | A wait on a flagged token is refused, any other registers a waiter that is not yet woken |
| Cancellation.Notify.NotifyWaiters | cmha/src/cancellation_token.rs:87 | Every registered waiter is woken and none stays registered |
| CancellationProtocol.RunKeepsInv | cmha/src/cancellation_token.rs:61-163 | Over every interleaving, a token is flagged exactly when it is among the listed tokens already reached, and waiters are woken or failed only by their own source |
| CancellationProtocol.FailsOnlyWhenCancelled | cmha/src/cancellation_token.rs:139-163 | `wait_on` fails only if the source of its own token was cancelled |
| CancellationProtocol.FlaggedExactlyTheListed | cmha/src/cancellation_token.rs:61-100 | After the notification the flagged tokens are exactly those in the list when the first `cancel` took the lock |
| CancellationProtocol.CreatedTokenIsFlaggedIff | cmha/src/cancellation_token.rs:91-100 | In every run a token made by `create_token` is flagged, once its source has notified, if and only if it was made before the source was cancelled |
| CancellationProtocol.TokenOfItsSourceIsNeverFlagged | cmha/src/cancellation_token.rs:37-59 | In every run the token of `new_with_a_token` is never flagged |
| CancellationProtocol.EarlyWaitersAreWoken | cmha/src/cancellation_token.rs:87 | No waiter registered before `notify_waiters` is left waiting by it |
| CancellationProtocol.RunExtends | cmha/src/cancellation_token.rs:61-163 | Flags are never reset, a first cancellation is never redone, and the outcome of a wait never changes |
| CancellationProtocol.LaterCancelsChangeNothing | cmha/src/cancellation_token.rs:77-80 | No step of a later `cancel` changes anything |
| CancellationProtocol.CancelRunsToEnd | cmha/src/cancellation_token.rs:81-88 | From any point, a `cancel` under way can flag the whole list and notify by its own steps alone |
| CancellationProtocol.UncancelledSourceNeverFlags | cmha/src/cancellation_token.rs:61-89 | Cancelling other sources, in any interleaving, never flags a token of this one |
| CancellationProtocol.WaitAfterCancelFailsIff | cmha/src/cancellation_token.rs:143-146 | After the notification a new wait fails if and only if its token was in the list at the cancellation, whatever follows |
| CancellationProtocol.RegistrationDecides | cmha/src/cancellation_token.rs:151-157 | A wait that read its flag unset never fails if it registers after `notify_waiters`, and is not left waiting if it registers before |
| CancellationProtocol.RegisteredWaitFails | cmha/src/cancellation_token.rs:151-157 | In every run, once its source has notified, a wait registered in time that has neither completed nor been dropped is woken or has failed, and fails when next looked at |
| CancellationProtocol.CancelFailsRegisteredWait | cmha/src/cancellation_token.rs:61-89 | From any state with a registered wait, a whole `cancel` of its source, or the rest of one, makes it fail |
| CancellationProtocol.WaitRegisters | cmha/src/cancellation_token.rs:143-157 | A wait on an unflagged token of a source that has not notified registers in time, and ends with its future if nothing cancels it first |
| CancellationProtocol.WakeUpCanBeLost | cmha/src/cancellation_token.rs:143-157 | From every state with such a wait not yet registered, a whole `cancel` fits in between and leaves it waiting on a flagged token |
| CancellationProtocol.DeafStaysDeaf | cmha/src/cancellation_token.rs:151-157 | A wait that missed the notification never fails |
| Publishing.PublishManager.DealWithConnectionStatusChange | cmha/src/device_manager.rs:731-810 | The call fails exactly when it needs an initialisation that fails; after every successful call flag, handle and source agree; an existing session is kept on a repeated connection; only the newest task can be live and every other was flagged and over before it was spawned; the branches for a missing source, a missing handle and a handle while disconnected cannot be reached |
| Publishing.PublishManager.EndSession | cmha/src/device_manager.rs:753-783 | The session's source is cancelled, its task is flagged, and finished or aborted |
| Publishing.PublishManager.Stop | cmha/src/device_manager.rs:724-729 | Afterwards every task ever spawned has its token flagged |
| Publishing.PublishManager.constructor | cmha/src/device_manager.rs:715-722 | A new manager is disconnected and has no session |
| Connection.DeviceManager.HandleEvent | cmha/src/device_manager.rs:400-472 | Every event moves flag, slot and answer as the specification of one event says |
| Connection.DeviceManager.ReportDisconnected | cmha/src/device_manager.rs:378-398 | A known connection that is lost clears the flag and sends one disconnection; an unknown or lost one sends none |
| Connection.DeviceManager.RequestStop | cmha/src/device_manager.rs:192-197 | The stop flag is set first and a stop message takes the slot |
| Connection.WatchChannel.Send | cmha/src/device_manager.rs:147 | The single slot is overwritten; with no receiver nothing is stored |
| Connection.WatchChannel.BorrowAndUpdate | cmha/src/device_manager.rs:628 | The slot's message is read and marked seen |
| Connection.EventMovesFlag | cmha/src/device_manager.rs:400-472 | The flag is 2 after an event exactly when the event acknowledges a connection or it was 2 and the event does not lose it; a disconnection is sent exactly when a known connection is lost, a connection at every acknowledgement |
| Connection.EventAnswers | cmha/src/device_manager.rs:400-472 | The event loop is told to stop exactly on a protocol error after a stop request, to wait exactly on a loss whose report goes through, of a connection error exactly on a refusal or a TLS error, and of a closed channel exactly when a message is due and there is no receiver |
| Connection.EventFillsSlot | cmha/src/device_manager.rs:408-465 | The slot then holds the command with its topic and payload, the connection, or the disconnection that ends a known one; otherwise what it held |
| Connection.EventKeepsLink | cmha/src/device_manager.rs:378-472 | Every event keeps the connection messages alternating, the flag equal to the last one sent, and an unread one in the slot equal to it |
| Bridge.RunKeepsInv | cmha/src/device_manager.rs:606-810 | The joint invariant of sessions, subscribers and channel holds over every run of the whole bridge |
| Bridge.AtMostOneLiveSession | cmha/src/device_manager.rs:731-810 | In every run at most one session is live or unflagged, it is the newest, and whenever the consumer waits the manager is connected if and only if it has a session |
| Bridge.CancelledSessionPublishesAtMostOnce | cmha/src/update_engine.rs:47-115 | A session publishes at most one batch and finishes at most one discovery tick after its cancellation, those it was working on |
| Bridge.ReplacedSessionIsSilent | cmha/src/device_manager.rs:753-805 | Once a session has a successor its state is final and none of its steps does anything any more, in any run |
| Bridge.ReadingsAreHeld | cmha/src/device_manager.rs:812-893 | In every run, subscribers hold the last reading of every topic of the current session that no lost publish and no publish past the cache has tainted |
| BridgeRuns.SubscribersInStep | cmha/src/device_manager.rs:812-893 | Over every run: a session starts, finishes a pass that reads a topic and is still current; unless it has finished another reading of it, or some step since its start lost a publish on the topic or published on it past the cache, subscribers hold what that pass read |
| BridgeRuns.TaintedOnlyIf | cmha/src/device_manager.rs:285-299 | Over any run only a lost publish or one past the cache taints a topic |
| BridgeRuns.PassFilters | cmha/src/update_engine.rs:53-66 | A task in a pass filters and publishes as one step of a filter run, less what is lost; one that is not in a pass does nothing |
| BridgeRuns.DiscoveryDrops | cmha/src/update_engine.rs:95-107 | A task in a discovery tick drops what the tick purges; one that is not does nothing |
| BridgeRuns.TicksStartIff | cmha/src/update_engine.rs:49-52 | A live task begins a pass or a discovery tick exactly when its flag is not set |
| BridgeRuns.FlaggedSessionFinishesOnce | cmha/src/update_engine.rs:47-115 | In any run, once a session's token is flagged, at most one pass and one discovery tick of it still do anything |
| BridgeRuns.SessionStarts | cmha/src/device_manager.rs:789-805 | A session starts live, unflagged and with an empty cache, and what its initialisation published is held |
| BridgeRuns.QuietBridgeAgreesUnlessHidden | cmha/src/device_manager.rs:612-643 | In every run, when the consumer waits with everything read, manager and flag agree if and only if no step overwrote an unread connection message that mattered without another being sent since |
| BridgeRuns.StopIsAsked | cmha/src/device_manager.rs:192-197 | A stop request reaches the slot if there is a receiver, and the event loop knows of it either way |
| BridgeRuns.BypassIsHeld | cmha/src/device_manager.rs:224-228 | A publish past the cache is held; a forced stop ends a consumer that waits and no other |
| BridgeRuns.TaskEnds | cmha/src/device_manager.rs:827-893 | A task that ends is no longer live and publishes nothing by it |
| Bridge.FlagTellsTheLastMessage | cmha/src/device_manager.rs:378-472 | In every run, while the receiver lives, the flag is 2 if and only if the last connection message sent was a connection, and no disconnection is sent without a connection before it since the last |
| Bridge.QuietBridgeAgreesIff | cmha/src/device_manager.rs:612-643 | When the consumer waits with everything read, manager and flag agree if and only if no connection message that mattered was overwritten; with a connection message in the slot all three agree |
| Bridge.CommandHidesConnectionIff | cmha/src/device_manager.rs:408-415 | A command that replaces an unread connection message leaves manager and flag in agreement if and only if that message would have changed nothing |
| Bridge.ConnectionCanBeMissed | cmha/src/device_manager.rs:408-424 | Some run from the start ends with everything read, the connection flag up and no session |
| Bridge.MissedConnectionStaysMissed | cmha/src/device_manager.rs:612-643 | A missed connection message stays missed until another one is sent, whatever else happens |
| Bridge.FailedCommandEndsConsumer | cmha/src/device_manager.rs:641-643 | A command received ends the consumer if and only if dealing with it fails, and leaves its session in place |
| Bridge.FailedConsumerOrphansSession | cmha/src/device_manager.rs:594-602 | Once the consumer has failed its session's token is never flagged, in any run |
| Bridge.SessionCanBeCancelledIff | cmha/src/device_manager.rs:594-662 | In every run, some continuation cancels the current session if and only if the consumer has not failed |
| Bridge.StopIsHeardIff | cmha/src/device_manager.rs:192-197 | In every run, a stop request makes the consumer stop, or drain in order to stop, when it next receives, if and only if no command, acknowledged connection or lost connection overwrites it first |
| MessageTraffic.HandleMessage | cmha/src/device_manager.rs:628-662 | One turn of the consumer over the objects leaves the manager where the machine's steps leave it, with the published updates of a command as a publish past the cache, and goes on, stops or fails as the machine's consumer does; devices change only as the dispatch of a command says |
| MessageTraffic.HandleStop | cmha/src/device_manager.rs:644-661 | The session ends whatever follows, and the loop stops if and only if the devices are made unavailable and the client disconnected |
| MessageTraffic.DealWithCommand | cmha/src/device_manager.rs:301-337 | A message on the status topic changes nothing and initialises exactly when it says online; any other is dispatched to the devices, and its error and its updates are the dispatch's |
| MessageTraffic.StatusTopicIs | cmha/src/device_manager.rs:306 | The status topic has two levels, the prefix and the status |
| MessageTraffic.SettledIs | cmha/src/device_manager.rs:628-662 | The session and the consumer's state after each message, for every outcome |
| MessageTraffic.CommandEndsConsumerIff | cmha/src/device_manager.rs:641-643 | A command ends the consumer if and only if it is not on the status topic and its dispatch fails, and exactly then the session can never be cancelled |
| MessageTraffic.ClaimantEndsConsumerIff | cmha/src/device_manager.rs:321 | With one claimant, a command ends the consumer if and only if that handler answers with an error |
| StopFlags.RunKeepsInv | cmha/src/device_manager.rs:81-92 | Over every interleaving of the two unatomic updates, the word is exactly what the loads and stores so far allow |
| StopFlags.FlagsTellStoppedTasks | cmha/src/device_manager.rs:202-214 | The word is set once either task has stored, a flag set belongs to a task that stopped, and `stop` leaves its loop only on exactly one flag |
| StopFlags.FlagLostIff | cmha/src/device_manager.rs:581-582 | When both tasks have stored, a flag is lost if and only if neither loaded after the other's store |
| StopFlags.WordIsOfStepsIff | cmha/src/device_manager.rs:568-582 | Over every interleaving, in terms of the loads and stores alone: when both tasks have stored, both flags are set if and only if one loads after the other's store; before, exactly the flags of those that have stored |
| StopFlags.StopLeavesIff | cmha/src/device_manager.rs:202-214 | Once a flag is set, the next poll lets `stop` leave if and only if not both are; with both it never leaves |
| StopFlags.StopCanBeStuck | cmha/src/device_manager.rs:202-214 | When one task stops after the other before the first poll, both flags are set and `stop` never leaves |
| StopFlags.RunningEventLoopIsCancelled | cmha/src/device_manager.rs:215-220 | In every interleaving, `stop` skips the cancellation only of an event loop that has stopped |
| StopFlags.SecondLoadDiffersIff | cmha/src/device_manager.rs:202-220 | The second load of the flags differs from the one that `stop` left its loop on if and only if the other task stores in between, and exactly then it cancels an event loop on whose flag it left |
| Dispatch.DispatchIsOrderIndependent | cmha/src/devices/devices.rs:152-192 | With pairwise disjoint command topics every visiting order leaves the same states and updates, and runs at most one handler |
| Dispatch.SoleClaimantRuns | cmha/src/devices/devices.rs:152-192 | A topic with one claimant runs that handler once, leaves it in the state it answers with and changes nothing else, in any order; the answer is its updates, none when it has none or did not handle it, or its error |
| Dispatch.UnclaimedTopicChangesNothing | cmha/src/devices/devices.rs:185-191 | A topic that nobody claims changes nothing, runs nothing and returns no updates |
| Dispatch.SharedTopicGoesToTheFirst | cmha/src/devices/devices.rs:155-176 | In any registry, of two devices that would take a command the first visited takes it and the other does not see it, so two orders end in different states |
| Dispatch.OrderIrrelevantIff | cmha/src/devices/devices.rs:152-192 | For any registry and topic, every visiting order gives the same states, updates and runs, for all handlers and payloads, if and only if no two devices claim the topic |
| Dispatch.SoleDeviceDecides | cmha/src/devices/devices.rs:152-192 | A topic that one device claims, with however many handlers, is answered by that device alone in any order |
| Dispatch.OneClaimInDevice | cmha/src/devices/device.rs:187-207 | Within a device the sole claimant alone runs and its answer is the device's |
| Dispatch.NoClaimInDevice | cmha/src/devices/mod.rs:72-88 | A handler that does not list the topic is not run |
| Dispatch.HandleDeviceCommand | cmha/src/devices/device.rs:187-207 | The loop over the handlers stops at the first error or handled answer |
| Registries.Devices.HandleCommand | cmha/src/devices/devices.rs:152-192 | The devices change and answer as dispatch in some order that visits each once; with one claimant the answer is its updates, none when it has none or did not handle it, or its error |
| Registries.Devices.VisitDevices | cmha/src/devices/devices.rs:155-191 | The loop over the devices refines dispatch in the order visited |
| Registries.Devices.AddDevices | cmha/src/devices/devices.rs:223-235 | Unless cancelled, the devices enter under their source ids with the registry's own token |
| Registries.Devices.RemoveDevices | cmha/src/devices/devices.rs:237-247 | Unless cancelled, exactly the identifiers named go, and the devices held under them come back, each once |
| Registries.Devices.Filter | cmha/src/devices/devices.rs:204-217 | Exactly the devices under the identifiers named, with the registry's token |
| Registries.Devices.FromDeviceProviders | cmha/src/devices/devices.rs:62-82 | The first failing provider decides; otherwise a key is held if and only if a registry that is not shared has it, with the device of the last such one, and the process token |
| Registries.UnionsLookup | cmha/src/devices/devices.rs:67-77 | A key of the union is a key of some part, and the last such part has its device |
| Registries.Devices.NewFromManyDevices | cmha/src/devices/devices.rs:20-31 | The devices under the identifier of their details, and no token |
| Orders.KeysInSomeOrder | cmha/src/devices/devices.rs:84-86 | Visiting a map lists every key exactly once |
| Registries.ExtendedLookup | cmha/src/devices/devices.rs:230-233 | After adding, every device is a new one under its own key, or an old one that none of the new replaced |
| Registries.LastAddedStays | cmha/src/devices/devices.rs:230-233 | A device is added under its source id, or its identifier without one, and the last of several stays |
| Registries.LastKeyedStays | cmha/src/devices/devices.rs:20-31 | Of several devices with the same identifier the last one stays |
| Registries.AddedDevicesCarry | cmha/src/devices/devices.rs:223-235 | Whatever tokens the devices added were made with, all devices carry the registry's token |
| Discovery.DiscoveryTick | cmha/src/update_engine.rs:118-176 | The tick fails if and only if one of its halves does; when the first does nothing changes, when the second does exactly the additions stay and nothing is purged or reported; a tick that succeeds leaves the registry, the purged records and the events of the specified tick |
| Discovery.ReportsTell | cmha/src/update_engine.rs:168-175 | The events of a tick name exactly what it created and what it removed, and none is empty |
| Discovery.AddDiscoveredDevices | cmha/src/container_device.rs:395-433 | Devices for exactly the named containers not yet held are added and reported, or nothing changes |
| Discovery.RemoveMissingDevices | cmha/src/container_device.rs:357-393 | Exactly the source ids missing from the listing are removed, and their devices returned, or nothing changes |
| Discovery.CreateContainerDevices | cmha/src/container_device.rs:79-244 | One device per container with a name or an id, in order, under its source name |
| Discovery.CreatedNames | cmha/src/container_device.rs:407-430 | The identifiers reported as created are the names listed that the registry does not hold |
| Discovery.DevicesMade | cmha/src/container_device.rs:88-105 | The devices made are those of the containers that have a name or an id |
| Discovery.SourceNameIs | cmha/src/container_device.rs:89-105 | A container is known by its first name without the slashes in front, which never begins with one, else by its id |
| Discovery.PrefixedApart | cmha/src/container_device.rs:106-111 | Names stay apart under a prefix and prefixes under a name; without a prefix a name is itself |
| Discovery.ContainerDeviceIs | cmha/src/container_device.rs:111-240 | A container device has its name as source id, the slug of the prefixed name as identifier, and an entity for each entity name |
| Discovery.CommandsAreOfEntities | cmha/src/container_device.rs:124-236 | The command topics of a container device are those of its entities with a button, and each button has one |
| Discovery.NewContainersAre | cmha/src/container_device.rs:408-416 | The containers taken for new are those listed with a name that is no key |
| DiscoveryRuns.TickFollowsTheListings | cmha/src/container_device.rs:357-433 | A tick leaves exactly the containers known or newly listed that are still listed, under their keys, leaves every other device alone, keeps the registry well keyed, and removes the rest |
| DiscoveryRuns.TickKeys | cmha/src/container_device.rs:357-433 | The keys after a tick, for any registry at all |
| DiscoveryRuns.EventsTellTheRegistry | cmha/src/update_engine.rs:118-176 | Applying the events of any run of ticks to the initial keys yields the keys held |
| DiscoveryRuns.RepeatedListingIsSilent | cmha/src/update_engine.rs:168-175 | A tick that finds the listing that ended the tick before it reports nothing and changes nothing, if all it shows was held or listed first in that tick |
| DiscoveryRuns.KnownListingIsSilent | cmha/src/container_device.rs:417-419 | So does any listing that shows every container held and nothing else |
| DiscoveryRuns.HeldContainerIsToldIff | cmha/src/update_engine.rs:125-175 | Some event of a run of ticks names a container held if and only if some second listing misses it |
| DiscoveryRuns.FailedTickAddsIff | cmha/src/update_engine.rs:125-139 | The failed tick changes the keys if and only if the first listing brought something new, and the next tick does not report that |
| DiscoveryRuns.FailedTickIsToldIff | cmha/src/update_engine.rs:125-175 | After a failed second listing, the events of any later run tell every identifier held but the new ones listed ever since; so they tell the registry again if and only if each of those has been missing once |
| DiscoveryRuns.EventsTellMixedRunIff | cmha/src/update_engine.rs:125-175 | Over any run of ticks that succeed or fail at their second listing, the events tell every identifier held but those that a failed tick created and every successful tick since listed, and so tell the registry if and only if there is none |
| DiscoveryRuns.InitialWellKeyedIff | cmha/src/container_device.rs:350-354 | With distinct identifiers the initial registry is well keyed if and only if the slug of every prefixed name is the name |
| DiscoveryRuns.MiskeyedContainerIsDoubled | cmha/src/container_device.rs:376-430 | A container keyed by another identifier is added again, and after the tick its first entry stands beside the new one with the same identifier if and only if that key is listed as a name or is no removable device's source id |
| DiscoveryRuns.MiskeyedDeviceIsNeverRemoved | cmha/src/container_device.rs:376-391 | A device whose key is no removable device's source id stays through every run of ticks, those that fail after adding included, whatever is listed, and no container of that very name is ever created |
| DiscoveryRuns.DeviceCanBeRemovedIff | cmha/src/container_device.rs:376-391 | Some run of ticks, complete or failing after adding, removes the device under a key if and only if some removable device has that key as its source id |
| DiscoveryRuns.TakenKeyIsNotCreated | cmha/src/container_device.rs:407-415 | No tick creates a device under a key that is taken |
| DiscoveryRuns.TicksKeepToken | cmha/src/devices/devices.rs:223-235 | Over any run of ticks, those that fail after adding devices included, all devices carry the process token |
| DiscoveryRuns.DevicesOutliveSessions | cmha/src/devices/devices.rs:14-16 | Through any discoveries by any sessions, those cut off between adding and removing included, and any cancellation of their sources, in any interleaving, every device carries the process token and it stays unflagged |
| DiscoveryRuns.ContainerTopicsDisjointIff | cmha/src/container_device.rs:124-179 | Command topics are pairwise disjoint if and only if no two containers share an identifier |
| DiscoveryRuns.ContainerOrderIrrelevantIff | cmha/src/devices/devices.rs:152-192 | The visiting order makes no difference to any command if and only if no two containers share an identifier |
| DiscoveryRuns.TickForgetsItsRemovedDevices | cmha/src/update_engine.rs:150-166 | A tick's purge forgets every topic of every entity of a removed device and keeps the records of devices with other identifiers |
| RemovalRuns.ReturnIsPublishedIff | cmha/src/update_engine.rs:150-166 | A device read in a pass, away for any run of ticks and passes, and read again: a reading is published if and only if it has changed, or a tick purged its topic after its entry in the first pass, in between, or before its entry in the last; the ticks inside the passes determine the purges |
| RemovalRuns.RemovalHidesReturnIff | cmha/src/update_engine.rs:118-166 | A container is removed in the midst of a pass that has read it, and found again by the next tick: the removal purges all its topics and takes it out of the registry, the tick brings it back, and the same reading is published if and only if its entry had been handled when it was removed |
| RemovalRuns.UnreadRecordStaysIff | cmha/src/update_engine.rs:162-166 | Over any run of ticks and passes that does not read a topic, its record stays, unchanged, if and only if no tick, between passes or inside one, purges it |
| RemovalRuns.PurgedMidwayIff | cmha/src/update_engine.rs:118-166 | A topic is purged by the ticks inside a pass if and only if it is purged before its entry or after it |
| Debounce.DebouncedHandler.GetEntityData | cmha/src/devices/mod.rs:134-152 | A read is passed on exactly when it comes later than the window, and then moves it even if it fails |
| Debounce.Follow | cmha/src/devices/mod.rs:134-152 | Over a whole run of calls the inner handler is read at exactly the accepted times, and skipped calls answer empty maps |
| Debounce.AcceptedReadsAreApart | cmha/src/devices/mod.rs:137-143 | Whatever the clock does, the k-th read accepted after the first comes more than k durations after it |
| Debounce.WindowBound | cmha/src/devices/mod.rs:137-143 | Any window holds at most one inner read more than the durations that fit in it |
| Debounce.SkippedReadIsInvisible | cmha/src/devices/mod.rs:145-151 | A pass in which every read is skipped makes no difference to what subscribers hold, then or later |
| Debounce.SkippedHandlerAddsNothing | cmha/src/devices/device.rs:146-153 | A skipped handler adds nothing to what its device reads, nor a device that skips everything to what a pass merges |
| CpuUsage.ContainerStats.GetCpu | cmha/src/container_device.rs:682-720 | The sample replaces the last one even when it is refused; the value is that of the two samples |
| CpuUsage.ContainerStats.GetEntityData | cmha/src/container_device.rs:734-768 | A container that is not running forgets its last sample |
| CpuUsage.ValueOfTwoSamples | cmha/src/container_device.rs:682-720 | In any sequence of readings each value depends on the last two samples since the last stop, and the first of them is empty |
| CpuUsage.PercentagesTelescopeIff | cmha/src/container_device.rs:697-704 | The weighted percentages of a running stretch add up to the CPU time used if and only if the total never goes back, and overstate it otherwise |
| CpuUsage.WeightedIsGrowth | cmha/src/container_device.rs:697-704 | One weighted percentage is the growth in CPU time, or nothing when the total went back |
| CpuUsage.UsageIs | cmha/src/container_device.rs:689-711 | Two samples give an error exactly when a field that is needed is missing, and zero when the system usage or the total has not grown |
| LogRequests.LogRequest.GetEntityData | cmha/src/container_device.rs:445-469 | A read fetches exactly when a request is pending, and takes it even when the fetch fails |
| LogRequests.LogRequest.Press | cmha/src/container_device.rs:482-494 | A request is pending |
| LogRequests.OneFetchPerGroup | cmha/src/container_device.rs:445-494 | Any number of presses between two reads gives exactly one fetch, so fetches never exceed presses |
| LogRequests.FetchesWhenPressedSince | cmha/src/container_device.rs:449-452 | A request is pending at any point if and only if a press came after the last read before it |
| LogRequests.AnswersAre | cmha/src/container_device.rs:449-468 | A read of a run answers what its fetch brings, or its error, when a press came since the read before, else nothing |
| LogRequests.Follow | cmha/src/container_device.rs:436-495 | Over a whole run, whatever each fetch brings, the object fetches and answers as the account of reads and presses says |

## Left out

- The MQTT client, TLS, the container engine's client and signals: their events and results are arbitrary inputs.
- Timers and sleeps: ticks come at any time; no real-time claim beyond the debounce bound.
- `slugify`: a parameter; only that its output has no '/' and keeps button names apart is assumed, and only where stated.
- Decimal rounding and two-digit formatting of CPU percentages: exact rationals instead.
- JSON discovery payloads, entity types and device metadata other than the host mark: plumbing with easy claims.
- Shared memory and the health check: a failing health check is a connection message that fails to be handled.
- Arguments, logging, macros, the sample device and the debug-only counter of waiters.
- Log text truncation, memory and disk figures, availability strings: one branch each.
- Device sharing: registry and filtered copies share device objects in the source; here a device is a value, so a change made through one copy is not seen in the other.
- Bridge.ReplacedSessionIsSilent: the last poll of a task that had to be aborted is taken to be over when `abort` returns, where the runtime lets it run to its next await.
- What the broker keeps for subscribers that come later: subscribers are taken to have been there throughout.
- The body of `initialize`, the listing of discovery and command topics, and the publishing of discovery messages.
- Cancellation.CancellationToken.BeginWait: flag and registration in one step here; `CancellationProtocol` takes them apart.
- LogRequests.LogRequest.GetEntityData: two reads of one device at the same time, which could both fetch, are not modelled.
- Discovery.DiscoveryTick: one provider, where the source runs several at once; and the purge is one step here, which `MessageCache` interleaves with the passes.
- Registries.Devices.FromDeviceProviders: each provider's answer is an input, as `get_devices` asks the container engine; what it makes of a listing is in `InitialDevices`.
