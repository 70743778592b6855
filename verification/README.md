# openDuT: verified models of CARL, EDGAR and the NetBird client

openDuT connects electronic control units over a network. CARL, the server, stores peers, clusters and deployments and
rolls a deployed cluster out once all its peers are online; EDGAR, the client on each peer, sets up the links of its
cluster; a restbus simulation replays the payloads of bus messages. This project models the parts whose correctness spans
several functions, and proves what holds in every run.

- `PayloadPacking`, `PayloadProperties` (on `Binary`): the initial payload of a PDU, bit by bit, and how values are read
  back from it (section 6.2.2 of the AUTOSAR System Template, R22-11).
- `SignalGrouping` (on `Multisets`): how mapped signals are distributed over signal groups.
- `ResourceEvents`, `OnlineObserver`: transactions that relay their events on success, and a view kept from these events.
- `PeerSessions`: the connection protocol at the granularity of single transactions. `PeerBroker`: the same with whole
  steps. `SessionLoop`: the loop of one session.
- `Deployment`, `Rollout`, `UnguardedStores`, `ClusterManager` (on `Topology`, `Peers`): the deployment tables as a state
  machine, what its derived states mean, what stores without a guard can do, and the managers' operations as methods proved
  to be its steps.
- `MemberMapping`, `CanServerPorts`, `ClusterStar`: what a rollout sends, and the star of links that its members build.
- `NetbirdVpn`: clusters in NetBird under failing calls. `CannelloniTokens`: termination of the CAN tunnel processes.

Protocols are state machines: a datatype of steps, when each is enabled, and the state after it. Objects whose methods
update fields are classes, and their methods are proved against the same functions that the lemmas about runs use.
`dafny verify dfyconfig.toml` checks everything.

## What turned out not to hold

Each of these is proved, with the exact condition under which the intended property does hold, or, for the ports, with a
bound that cannot be improved.

- A negative initial value makes the packing loop endless (`ShiftLoopEndsIff`).
- A signal group that exits early for missing data ids takes its signals with it, and of two mappings with the same path
  only the last one stays (`SignalConservationIff`, `MissingDataIdsLoseSignals`, `RepeatedPathLosesSignal`).
- A transaction with more events of one type than the relay channel holds tells its subscribers none of them, and nobody
  learns of tables whose commit succeeded before the other one's failed (`StepReplaysIff`,
  `OverfullTransactionBreaksReplay`).
- The observer misses changes between its listing and its subscription (`ViewRightIff`).
- A removal of a connection state that was read as Offline can hit a peer that is Online by then, after which two sessions
  own it (`StepKeepsOwnershipIff`, `StaleRemovalAdmitsTwoOwners`).
- A teardown that writes Offline after the deletion of its peer has been handled leaves a state behind that nothing will
  remove (`StepKeepsAccountedIff`, `InterleavedTeardownLeavesOrphan`).
- A peer that reconnects while its old session is about to leave the map loses its new entry, and its `open` fails. If the
  handler of removals has notified the old session before and writes its entry back only then, the new session's entry is
  replaced by one with the old sender and the disconnect mark (`StepKeepsEntryIff`, `ReconnectLosesEntry`,
  `LateMarkReplacesEntry`).
- An `open` that fails to send the initial configuration leaves its peer Online for good (`FailedOpenLocksPeer`).
- A configuration stored while its cluster is deployed, or a peer stored with devices of two deployed clusters, breaks
  exclusivity and with it the assertion about blocked peers (`StepKeepsExclusiveIff`, `UnguardedPeerStorePanics`,
  `UnguardedConfigurationStorePanics`).
- CAN ports are not reused only as long as the requests in between, plus the largest of them, fit into the range; with one
  port more the same port can be handed out twice (`PortWindow`, `WindowIsSharp`).
- Members that were sent an assignment keep it when a later member cannot be assigned and the transaction is rolled back
  (`LeavesAssignmentsIff`, `AssignmentOutlivesRollback`).
- A NetBird client that reports a failed deletion as an illegal status with code 404 doubles the group. No later step
  removes the double, and creating the cluster again fails unless its policy is reported like that once more
  (`CreateKeepsTidyIff`, `AmbiguousForever`, `AmbiguousInEveryRun`). The default client reports an illegal request
  instead, with which the "not found" branches of the deletion are never taken.
- A Cannelloni process that is found exited at every look keeps its manager from ever reading the termination token
  (`StopsUnlessAlwaysExited`).

Where code and comments disagree the model follows the code: the comment on the packing routine speaks of undefined bits as
set to 1, while the code takes the unused-bit pattern it is given.

## Assumptions

- A manager operation is one atomic step. Storing a deployment really is two transactions under the manager's lock, and
  creating and deleting configurations does not take that lock.
- The order in which hash maps and hash sets are listed is arbitrary; results that could depend on it are proved for all orders.
- Panics, including failing index checks, are failure values. An overflow of a 16-bit port computation is a failure too, as
  in a build with overflow checks; without them it would wrap around.
- Sizes and identifiers are unbounded integers: a payload of 2^61 bytes or more, whose number of bits overflows in the source,
  counts as a payload.
- Deleting a peer in the VPN takes several calls; it counts as effective once the peer's own group is gone.
- The relay channel is new for every transaction and its capacity is a parameter (the source asks for 100).
- Set-ups of CAN routing on one peer are handled one after another, as EDGAR applies assignments.

## Model

| member | source | states |
|---|---|---|
| PayloadPacking.ExtractInitValues | opendut-edgar/restbus-simulation/arxml_utils.rs:180-301 | the packing routine returns the payload of the specification, of exactly the requested number of bytes, or the reason why there is none; no bits are ever left over for the fold, and the final size check never fails |
| PayloadPacking.CollectBits | opendut-edgar/restbus-simulation/arxml_utils.rs:210-219 | the shift loop and the padding loop collect the binary digits of a non-negative value, least significant first; a negative one is reported |
| PayloadPacking.CollectSignalBits | opendut-edgar/restbus-simulation/arxml_utils.rs:202-254 | all bits of one signal, or the panic its value or length leads to |
| PayloadPacking.CopyBits | opendut-edgar/restbus-simulation/arxml_utils.rs:256-261 | copying fails exactly if a bit would fall outside the vector, and otherwise replaces just the signal's range |
| PayloadPacking.WriteEach | opendut-edgar/restbus-simulation/arxml_utils.rs:201-262 | writing the signals one after the other; the first that cannot be written decides the failure |
| PayloadPacking.FoldBits | opendut-edgar/restbus-simulation/arxml_utils.rs:264-284 | the folding loop builds one byte from every eight bits, and fills bits left over up with zeros |
| PayloadPacking.LeftoverFolded | opendut-edgar/restbus-simulation/arxml_utils.rs:281-284 | shifting the last byte by what is missing amounts to folding that many zeros |
| PayloadPacking.ReverseEach | opendut-edgar/restbus-simulation/arxml_utils.rs:286-290 | the bits of every byte are reversed in place, for a little-endian PDU |
| PayloadProperties.ShiftLoopEndsIff | opendut-edgar/restbus-simulation/arxml_utils.rs:210-215 | shifting right reaches zero exactly for non-negative values, so a negative initial value makes the loop endless |
| PayloadProperties.PayloadExistsIff | opendut-edgar/restbus-simulation/arxml_utils.rs:180-301 | a payload is produced exactly if the size is not negative and the signals to pack are either those without a group or those of the only group, and every valued one fits: inside the payload, with a value below two to its length |
| PayloadProperties.UnusedBitsKept | opendut-edgar/restbus-simulation/arxml_utils.rs:197-262 | the payload has the requested size and every bit outside all valued signals is the unused-bit pattern, in either byte order |
| PayloadProperties.WrittenBit | opendut-edgar/restbus-simulation/arxml_utils.rs:256-261 | the last signal that covers a bit decides it |
| PayloadProperties.ByteMeaning | opendut-edgar/restbus-simulation/arxml_utils.rs:264-290 | each byte is the number of its eight bits, read in the direction of the PDU byte order |
| PayloadProperties.PayloadInteger | opendut-edgar/restbus-simulation/arxml_utils.rs:264-290 | the whole payload, as a little-endian or as a big-endian integer, is the number of all bits |
| PayloadProperties.LittleEndianRoundTrip | opendut-edgar/restbus-simulation/arxml_utils.rs:197-294 | a little-endian signal of a little-endian PDU reads back as the payload divided by two to its start, modulo two to its length, unless a later signal overwrites it |
| PayloadProperties.BigEndianRoundTrip | opendut-edgar/restbus-simulation/arxml_utils.rs:197-294 | the counterpart for big-endian signals of a big-endian PDU |
| PayloadProperties.SignalBitRoundTrip | opendut-edgar/restbus-simulation/arxml_utils.rs:197-294 | for all four combinations of byte orders, every bit of a value is found at its position |
| PayloadProperties.ArrayBitRoundTrip | opendut-edgar/restbus-simulation/arxml_utils.rs:225-262 | every bit of every array value is found at its position, wherever the array starts and in either PDU byte order |
| PayloadProperties.ArrayRoundTrip | opendut-edgar/restbus-simulation/arxml_utils.rs:225-262 | array values that start on a byte boundary read back byte by byte; in a little-endian PDU with the bits of each byte mirrored |
| PayloadProperties.OrderIndependence | opendut-edgar/restbus-simulation/arxml_utils.rs:201-294 | permuting signals that do not overlap does not change the payload |
| SignalGrouping.SortByStart | opendut-edgar/restbus-simulation/arxml_utils.rs:415 | sorted by start position, with the same signals as often as before |
| SignalGrouping.MoveReferenced | opendut-edgar/restbus-simulation/arxml_utils.rs:396-413 | the loop over a group's references moves exactly the referenced signals out of the map |
| SignalGrouping.ProcessSignalGroup | opendut-edgar/restbus-simulation/arxml_utils.rs:385-480 | a complete group is appended with the signals it took, sorted; an incomplete one takes them all the same |
| SignalGrouping.HandleISignals | opendut-edgar/restbus-simulation/arxml_parser.rs:44-114 | mapped signals end in their groups, in order, or in the ungrouped list; all lists are sorted |
| SignalGrouping.GroupHandedOn | opendut-edgar/restbus-simulation/arxml_utils.rs:385-480 | a complete group is handed on in its place and under its name, sorted, with exactly the mapped signals that it is the first one to list |
| SignalGrouping.SignalPlaced | opendut-edgar/restbus-simulation/arxml_parser.rs:80-114 | a mapped signal, with the byte order, start and length of its mapping, is in the first group that lists it if that one is handed on, and ungrouped if none lists it |
| SignalGrouping.GroupCollected | opendut-edgar/restbus-simulation/arxml_parser.rs:71-77 | all signal groups are collected in the order of their mappings |
| SignalGrouping.LastMappingWins | opendut-edgar/restbus-simulation/arxml_parser.rs:48-70 | a path is mapped to what the last mapping with that path says |
| SignalGrouping.SignalBalance | opendut-edgar/restbus-simulation/arxml_parser.rs:80-114 | grouped, ungrouped and lost signals together are the mapped ones, counted with multiplicity, also when groups share references |
| SignalGrouping.LostNothingIff | opendut-edgar/restbus-simulation/arxml_utils.rs:385-480 | nothing is lost exactly if no group that exits early is the first to reference a mapped signal |
| SignalGrouping.NothingOverwrittenIff | opendut-edgar/restbus-simulation/arxml_parser.rs:44-78 | a mapping pushes another one out of the map exactly if two have the same path |
| SignalGrouping.SignalConservationIff | opendut-edgar/restbus-simulation/arxml_parser.rs:44-114 | every signal mapped in the PDU ends in exactly one list, counted with multiplicity, exactly if the paths are pairwise distinct and no group that exits early is the first to reference a mapped signal |
| SignalGrouping.RepeatedPathLosesSignal | opendut-edgar/restbus-simulation/arxml_parser.rs:70 | of two mappings with the same path the first one is lost |
| SignalGrouping.MixedSignalsPanic | opendut-edgar/restbus-simulation/arxml_utils.rs:182-184 | a signal group that is handed on and a signal that no group lists occur together exactly if the PDU maps both, and then packing panics |
| SignalGrouping.MissingDataIdsLoseSignals | opendut-edgar/restbus-simulation/arxml_utils.rs:449-450 | the condition matters: one signal referenced by one group without data ids appears nowhere |
| ResourceEvents.Resources.Insert | opendut-carl/src/resource/api/resources.rs:19-47 | an insertion queues its event only if the storage accepts it |
| ResourceEvents.Resources.Remove | opendut-carl/src/resource/api/resources.rs:29-54 | a removal returns the removed value and queues an event only if something was removed |
| ResourceEvents.TryReceive | opendut-carl/src/resource/subscription.rs:13-23 | a receiver of a bounded channel gets the next event, or learns how many it has lost and skips them |
| ResourceEvents.ResourceManager.SendRelayedSubscriptionEvents | opendut-carl/src/resource/manager.rs:101-150 | the relay loop of one resource type forwards the whole queue if it fits the channel, and nothing otherwise |
| ResourceEvents.ResourceManager.Relay | opendut-carl/src/resource/manager.rs:101-150 | all six types are forwarded, independently of each other |
| ResourceEvents.ResourceManager.ResourcesMut | opendut-carl/src/resource/manager.rs:79-93 | a transaction turns the store and the log of relayed events into those of the specification; a failed closure or database commit leaves both as they were, and a type with more events than the channel holds is not relayed at all |
| ResourceEvents.TablesByLastChange | opendut-carl/src/resource/api/resources.rs:42-54 | within a transaction every table entry is what the last change that was carried out for it makes it |
| ResourceEvents.CommittedTables | opendut-carl/src/resource/manager.rs:79-93 | so it is in the store after a committed transaction; any other ending leaves the table, except a half-done commit the persistent ones |
| ResourceEvents.QueueDescribesChanges | opendut-carl/src/resource/api/resources.rs:19-54 | within a transaction the queue of a type replays to its table, and removals carry the values that were stored |
| ResourceEvents.StepReplaysIff | opendut-carl/src/resource/manager.rs:79-150 | one transaction keeps the log replayable exactly if its events fit the channel, or the table did not change anyway |
| ResourceEvents.EventLogReplaysStore | opendut-carl/src/resource/manager.rs:75-150 | in every run of transactions whose events fit, replaying the relayed events of a type gives its table |
| ResourceEvents.LaterLogReplays | opendut-carl/src/resource/manager.rs:75-150 | from any state on, what later transactions relay turns the table of that state into the current one |
| ResourceEvents.OverfullTransactionBreaksReplay | opendut-carl/src/resource/manager.rs:101-150 | for every channel and type, one insertion more than the channel holds makes the log lose the table |
| OnlineObserver.ObservePeersOnline.constructor | opendut-carl/src/manager/observer_messaging_broker/observe_peers_online.rs:21-45 | the view begins with the listed states of the requested peers, absent ones as offline |
| OnlineObserver.ObservePeersOnline.Observe | opendut-carl/src/manager/observer_messaging_broker/observe_peers_online.rs:47-80 | one received event updates the view; a lagging receiver leaves it alone |
| OnlineObserver.ObservePeersOnline.PeerOnline | opendut-carl/src/manager/observer_messaging_broker/observe_peers_online.rs:89-96 | a requested peer takes the online state; others are ignored |
| OnlineObserver.ObservePeersOnline.PeerOffline | opendut-carl/src/manager/observer_messaging_broker/observe_peers_online.rs:98-103 | a requested peer becomes offline; others are ignored |
| OnlineObserver.ObservePeersOnline.DetermineResponse | opendut-carl/src/manager/observer_messaging_broker/observe_peers_online.rs:105-129 | success is answered exactly when all peers of the view are online, otherwise pending within the observation time and failure after it |
| OnlineObserver.ObserveAll | opendut-carl/src/manager/observer_messaging_broker/observe_peers_online.rs:47-80 | observing until the log is consumed gives the view that the specification computes from all events |
| OnlineObserver.ConsumingTracksTable | opendut-carl/src/manager/observer_messaging_broker/observe_peers_online.rs:47-103 | consumed events settle the state of every peer they touch, whatever the view was before |
| OnlineObserver.ViewRightIff | opendut-carl/src/manager/observer_messaging_broker/observe_peers_online.rs:21-103 | with events missed between listing and subscribing, the view is right about a peer exactly if it had an event since or missed no change |
| OnlineObserver.ViewFollowsTable | opendut-carl/src/manager/observer_messaging_broker/observe_peers_online.rs:21-129 | without a gap the view equals the connection table at every log position, and all peers are online in the one exactly when in the other |
| OnlineObserver.ObserverFollowsStore | opendut-carl/src/manager/observer_messaging_broker/observe_peers_online.rs:21-129 | from any state on, an observer that listed and subscribed and has consumed all events since sees the stored table of its peers, if no transaction after the listing exceeds the channel |
| OnlineObserver.MissedOnlineEvent | opendut-carl/src/manager/observer_messaging_broker/observe_peers_online.rs:21-45 | the gap matters: a peer that comes online between listing and subscribing stays offline in the view |
| PeerSessions.ChecksDecide | opendut-carl/src/manager/peer_messaging_broker/mod.rs:233-301 | what each check of the protocol on the stored tables decides, and what is then written |
| PeerSessions.OnlyStoredPeersConnect | opendut-carl/src/manager/peer_messaging_broker/mod.rs:142 | in every interleaving only sessions of peers whose descriptor has been stored get past the check |
| PeerSessions.StepKeepsOwnershipIff | opendut-carl/src/manager/peer_messaging_broker/mod.rs:125-301 | for each peer, of all single transactions exactly one kind breaks "recorded Online means owned by exactly one open": removing a state of that peer that was read as Offline and is Online by now |
| PeerSessions.OwnershipInEveryRun | opendut-carl/src/manager/peer_messaging_broker/mod.rs:125-301 | a peer's ownership holds in every interleaving without such a removal of it, whatever happens to other peers |
| PeerSessions.OwnershipWithoutDeletion | opendut-carl/src/manager/peer_messaging_broker/mod.rs:125-301 | a peer's ownership holds in every interleaving from the empty state in which its own descriptor is not deleted |
| PeerSessions.StepKeepsAccountedIff | opendut-carl/src/manager/peer_messaging_broker/mod.rs:272-301 | a state without descriptor has an owner or a removal that will still look at it; exactly a teardown that found the descriptor and writes Offline after the removal was handled breaks this |
| PeerSessions.AccountedInEveryRun | opendut-carl/src/manager/peer_messaging_broker/mod.rs:100-301 | so no state is orphaned in any interleaving without such a late write or a stale removal for the peer |
| PeerSessions.StepKeepsEntryIff | opendut-carl/src/manager/peer_messaging_broker/mod.rs:75-98 | under ownership, what is sent to a peer reaches the session that registered; exactly two things break this: an older session that leaves the map after a newer one registered, and the handler writing back the marked entry of another session it has notified before |
| PeerSessions.RegisteredAreReached | opendut-carl/src/manager/peer_messaging_broker/mod.rs:144-145 | without these, and without a stale removal, the initial configuration of a session goes to its own stream, and is not sent only if sending fails |
| PeerSessions.FailedOpenLocksPeer | opendut-carl/src/manager/peer_messaging_broker/mod.rs:142-145 | if the initial configuration is not sent, the peer stays recorded Online in every continuation and no other open ever owns it |
| PeerSessions.ReconnectLosesEntry | opendut-carl/src/manager/peer_messaging_broker/mod.rs:297-301 | the first is reachable: a reconnected peer is registered without entry, so that its open fails although sending would succeed |
| PeerSessions.LateMarkReplacesEntry | opendut-carl/src/manager/peer_messaging_broker/mod.rs:90-95 | so is the second: the entry of a reconnected peer holds the sender of its closed session, and is marked as disconnected |
| PeerSessions.StaleRemovalAdmitsTwoOwners | opendut-carl/src/manager/peer_messaging_broker/mod.rs:100-107 | a reachable state in which two opens own the same peer, after its descriptor was deleted and stored again |
| PeerSessions.InterleavedTeardownLeavesOrphan | opendut-carl/src/manager/peer_messaging_broker/mod.rs:272-301 | the late write is reachable: a connection state that has no descriptor, no session and no pending removal |
| PeerBroker.PeerMessagingBroker.Open | opendut-carl/src/manager/peer_messaging_broker/mod.rs:125-192 | who is accepted and with which error others are refused; an accepted open records the host and an unmarked entry, and starts a session if the configuration was sent; a refused one changes nothing |
| PeerBroker.OpenMeaning | opendut-carl/src/manager/peer_messaging_broker/mod.rs:142-153 | the same about the step, and that no other peer is touched |
| PeerBroker.TeardownMeaning | opendut-carl/src/manager/peer_messaging_broker/mod.rs:272-301 | a teardown takes one session and the entry away and leaves Offline exactly for a peer that still has a descriptor; no other peer is touched |
| PeerBroker.SessionsInEveryRun | opendut-carl/src/manager/peer_messaging_broker/mod.rs:125-192 | in every run the live sessions of a peer are its accepted and configured opens minus its teardowns |
| PeerBroker.HostInEveryRun | opendut-carl/src/manager/peer_messaging_broker/mod.rs:241-269 | in every run a peer recorded Online is recorded with the host of its last accepted open |
| PeerBroker.PeerMessagingBroker.RemovePeerImpl | opendut-carl/src/manager/peer_messaging_broker/mod.rs:272-301 | teardown writes Offline, or removes the state of a deleted peer, and leaves the map; without a state it stops early |
| PeerBroker.PeerMessagingBroker.Disconnect | opendut-carl/src/manager/peer_messaging_broker/mod.rs:75-98 | the disconnect mark is set exactly if the peer is connected and the notice was delivered |
| PeerBroker.PeerMessagingBroker.DisconnectPeerWhenRemoved | opendut-carl/src/manager/peer_messaging_broker/effects.rs:10-24 | one removed descriptor removes an Offline state or marks the connected peer |
| PeerBroker.StepKeepsKeys | opendut-carl/src/manager/peer_messaging_broker/mod.rs:100-301 | every whole step keeps the keys of the map the Online peers, with at most one session each |
| PeerBroker.KeysAreOnlinePeersInEveryRun | opendut-carl/src/manager/peer_messaging_broker/mod.rs:100-301 | that holds in every run whatsoever, also with opens that fail half-way |
| PeerBroker.StepKeepsServedIff | opendut-carl/src/manager/peer_messaging_broker/mod.rs:100-301 | a peer keeps a session while Online, and a session or pending removal while it has a state without descriptor, exactly unless an open of it fails to send |
| PeerBroker.ServedInEveryRun | opendut-carl/src/manager/peer_messaging_broker/mod.rs:100-301 | both claims for a peer in every run in which no open of that peer fails to send |
| PeerBroker.DrainingProgress | opendut-carl/src/manager/peer_messaging_broker/mod.rs:100-301 | every teardown and handled removal reduces what is outstanding by one |
| PeerBroker.NoOrphanAfterDraining | opendut-carl/src/manager/peer_messaging_broker/mod.rs:100-122 | after any history, once everything outstanding is handled, a peer that was never half-opened is not connected and its state, if any, has a descriptor |
| PeerBroker.HalfOpenedLeavesOrphan | opendut-carl/src/manager/peer_messaging_broker/mod.rs:142-145 | the exception matters: a half-opened connection stays Online without descriptor when nothing is outstanding |
| SessionLoop.SessionTask.Offer | opendut-carl/src/manager/peer_messaging_broker/mod.rs:134-139 | a closed channel accepts nothing, an open one as much as fits into 1024 messages |
| SessionLoop.SessionTask.Run | opendut-carl/src/manager/peer_messaging_broker/mod.rs:153-175 | the session loop follows the rounds of the specification |
| SessionLoop.RoundMeaning | opendut-carl/src/manager/peer_messaging_broker/mod.rs:154-175 | one round takes in what fits, handles the oldest message, and closes the channel exactly if the peer dropped it, the disconnect mark is set or nothing was there to handle |
| SessionLoop.MarkEndsSession | opendut-carl/src/manager/peer_messaging_broker/mod.rs:168-174 | a disconnect mark closes the channel, and the session is left once the messages then buffered are handled |
| SessionLoop.AcceptedMessagesAreHandled | opendut-carl/src/manager/peer_messaging_broker/mod.rs:153-175 | messages are handled in order, and leaving the loop leaves no accepted message unhandled |
| SessionLoop.ClosedSessionDrains | opendut-carl/src/manager/peer_messaging_broker/mod.rs:153-188 | once the channel is closed, exactly the buffered messages are handled, one a round, and the loop is left in the round after |
| SessionLoop.SilenceEndsSession | opendut-carl/src/manager/peer_messaging_broker/mod.rs:162-165 | a timeout ends the session however long nothing arrives |
| Deployment.MemberStatesExact | opendut-carl/src/manager/peer_manager/list_peer_member_states.rs:18-54 | under exclusivity the assertion never fires, and for every order of the hash maps a peer is Blocked by a cluster exactly if that cluster is deployed with one of its devices |
| Deployment.StoreAcceptsOnlyUnused | opendut-carl/src/manager/cluster_manager/mod.rs:95-118 | a deployment is newly stored only if no peer of the cluster is used by any deployed cluster |
| Deployment.StoredConfigurationExclusiveIff | opendut-carl/src/manager/cluster_manager/create_cluster_configuration.rs:13-30 | storing a configuration keeps exclusivity exactly if the cluster is not deployed or shares no peer with another deployed cluster |
| Deployment.StoredPeerExclusiveIff | opendut-carl/src/manager/peer_manager/store_peer_descriptor.rs:17-66 | storing a peer keeps exclusivity exactly if its devices meet at most one deployed cluster |
| Deployment.StepKeepsExclusiveIff | opendut-carl/src/manager/cluster_manager/mod.rs:95-133 | for every operation, exclusivity is kept exactly under its guard, and only the two unguarded stores have one |
| Deployment.ExclusiveInEveryRun | opendut-carl/src/manager/cluster_manager/mod.rs:95-133 | in every run from empty tables that respects the guards, every deployment has a configuration and no peer is used by two deployed clusters |
| Deployment.UndeployedStoreIsGuarded | opendut-carl/src/manager/cluster_manager/create_cluster_configuration.rs:13-30 | storing configurations of clusters that are not deployed respects the guard |
| UnguardedStores.TwoUsersPanic | opendut-carl/src/manager/peer_manager/list_peer_member_states.rs:31-50 | a peer with devices of two deployed clusters makes every listing panic, whatever the order |
| UnguardedStores.TwoDeployedReachable | opendut-carl/src/manager/cluster_manager/mod.rs:95-133 | two clusters can be deployed from empty tables with guarded operations |
| UnguardedStores.UnguardedPeerStorePanics | opendut-carl/src/manager/peer_manager/store_peer_descriptor.rs:17-66 | the guard of storing peers matters: from that state a peer stored again with devices of both clusters makes every listing panic |
| UnguardedStores.UnguardedConfigurationStorePanics | opendut-carl/src/manager/cluster_manager/create_cluster_configuration.rs:13-30 | so does the guard of storing configurations: a deployed cluster that is given another device of a used peer |
| Rollout.ChecksMeaning | opendut-carl/src/manager/cluster_manager/list_cluster_peer_states.rs:41-115 | the blocked, offline and only-blocked-by-self parts of the cluster's peer states, in terms of the tables |
| Rollout.StoreDeploymentAcceptedIff | opendut-carl/src/manager/cluster_manager/mod.rs:95-133 | storing a deployment succeeds exactly if the cluster is configured and no other deployed cluster uses its peers; otherwise exactly those peers are reported |
| Rollout.AcceptedStore | opendut-carl/src/manager/cluster_manager/mod.rs:95-118 | storing a deployment nobody stands against adds just that deployment |
| Rollout.DeployedRollsOutIff | opendut-carl/src/manager/cluster_manager/list_cluster_peer_states.rs:83-96 | a deployed cluster with peers is rolled out exactly if all of them are online, and always as already deployed |
| Rollout.RollsOutIffAllOnline | opendut-carl/src/manager/cluster_manager/mod.rs:188-217 | the same for deployed clusters with or without peers |
| Rollout.UndeployedRollsOutIff | opendut-carl/src/manager/cluster_manager/list_cluster_peer_states.rs:83-96 | a cluster that is not deployed passes the check exactly if its peers are online and used by no deployed cluster |
| Rollout.RolloutTrigger | opendut-carl/src/manager/cluster_manager/mod.rs:148-185 | a peer coming online makes at most one cluster a candidate, namely the deployed one with a device of it |
| Rollout.UndeployFreesExactly | opendut-carl/src/manager/cluster_manager/delete_cluster_deployment.rs:17-41 | a successful undeploy turns exactly the peers blocked by the cluster into Available and changes no other member state |
| Rollout.DeployThenUndeploy | opendut-carl/src/manager/cluster_manager/delete_cluster_deployment.rs:17-41 | storing a fresh deployment blocks exactly the cluster's peers, and deleting it restores the tables and all member states |
| ClusterManager.ClusterManager.StoreClusterDeployment | opendut-carl/src/manager/cluster_manager/mod.rs:95-133 | under exclusivity adds the deployment exactly if the cluster is configured and no other deployed cluster uses its peers, and attempts a rollout exactly if all peers of the cluster are online; in general performs the store step for some listing order |
| ClusterManager.ClusterManager.DeployClusterIfAllPeersAvailable | opendut-carl/src/manager/cluster_manager/mod.rs:188-217 | attempts a rollout exactly if the check allows it, and changes no table |
| ClusterManager.ClusterManager.DeployAllClustersContainingNewlyAvailablePeer | opendut-carl/src/manager/cluster_manager/mod.rs:148-185 | only attempts deployed clusters with a device of the peer; under exclusivity exactly one rollout if all peers of that cluster are online, and none otherwise |
| ClusterManager.ClusterManager.DeployCluster | opendut-carl/src/manager/cluster_manager/mod.rs:221-322 | a rollout succeeds only if every member is ready, and then all members are stored and sent the same well-formed assignment with their recorded addresses and exactly the ports granted, each with the interfaces its cluster devices name; otherwise nothing stored changes and the error names a cause that holds |
| ClusterManager.ClusterManager.DetermineAssignment | opendut-carl/src/manager/cluster_manager/mod.rs:221-291 | the members and the assignment determined for them from mapping, ports and connection states; ports granted before a member turns out offline stay used |
| ClusterManager.ClusterManager.AssignMembers | opendut-carl/src/manager/cluster_manager/mod.rs:298-319 | in the order of assigning, the first member that is not stored or not reachable fails the transaction; nothing is stored then, but exactly the members before it have been sent theirs |
| ClusterManager.LeavesAssignmentsIff | opendut-carl/src/manager/cluster_manager/mod.rs:298-319 | some order leaves a member with an assignment that is not stored exactly if one member can be assigned and another one cannot |
| ClusterManager.AssignmentOutlivesRollback | opendut-carl/src/manager/cluster_manager/mod.rs:298-319 | two online members of which the second cannot be reached, and the order in which the first keeps such an assignment |
| ClusterManager.OnlineMembersHaveEntries | opendut-carl/src/manager/peer_messaging_broker/mod.rs:51-58 | with whole steps of the broker, every member that is recorded Online is in the map of connected peers, so that sending finds it |
| ClusterManager.ClusterManager.DeleteClusterDeployment | opendut-carl/src/manager/cluster_manager/delete_cluster_deployment.rs:17-41 | removes just the deployment, exactly if it exists and the VPN does not fail for a configured cluster |
| ClusterManager.ClusterManager.CreateClusterConfiguration | opendut-carl/src/manager/cluster_manager/create_cluster_configuration.rs:13-30 | stores the given configuration for its cluster, whatever was stored and deployed before |
| ClusterManager.ClusterManager.DeleteClusterConfiguration | opendut-carl/src/manager/cluster_manager/delete_cluster_configuration.rs:16-45 | removes just the configuration, exactly if it exists and is not deployed |
| ClusterManager.ClusterManager.StorePeerDescriptor | opendut-carl/src/manager/peer_manager/store_peer_descriptor.rs:17-66 | stores the given descriptor exactly if storing succeeds and a new peer could be created in the VPN; the VPN goes on knowing exactly the stored peers unless creating a new peer there fails after its effect, or storing it fails and so does deleting it there again |
| Deployment.PeerDeletionIff | opendut-carl/src/manager/peer_manager/delete_peer_descriptor.rs:21-67 | under exclusivity a peer is deleted exactly if it exists, no deployed cluster uses it and the external deletions succeed; a cluster that uses it is named, and all other peers stay |
| ClusterManager.ClusterManager.DeletePeerDescriptor | opendut-carl/src/manager/peer_manager/delete_peer_descriptor.rs:21-67 | does so; a failing external deletion restores the peer, and the VPN goes on knowing exactly the stored peers unless it fails after its effect |
| ClusterManager.AssembledAssignment | opendut-carl/src/manager/cluster_manager/mod.rs:254-291 | addresses of online members and freshly allocated ports make up an assignment |
| MemberMapping.DetermineMemberInterfaceMapping | opendut-carl/src/manager/cluster_manager/mod.rs:366-405 | the loop fails exactly if some device has no peer or no described interface, and its result is the mapping of the specification whatever the iteration order |
| MemberMapping.InterfaceLookedUp | opendut-types/src/peer/mod.rs:282-285 | looking up an interface id finds the first interface that has it, and nothing exactly if none has it |
| MemberMapping.ContributionIff | opendut-types/src/peer/mod.rs:278-288 | for well-formed peers a device contributes exactly if some peer owns it, one interface, to that peer |
| MemberMapping.MembersAreClusterPeers | opendut-carl/src/manager/cluster_manager/list_cluster_peers.rs:9-22 | the members are the leader and the peers that own a device of the cluster |
| MemberMapping.OneInterfacePerClusterDevice | opendut-carl/src/manager/cluster_manager/mod.rs:366-405 | as many interfaces are gathered as the cluster has devices |
| MemberMapping.SameMapping | opendut-carl/src/manager/cluster_manager/mod.rs:366-405 | a mapping for one listing of the peers is one for every other listing of them |
| MemberMapping.GatheredAreClusterInterfaces | opendut-types/src/peer/mod.rs:278-288 | what is gathered for a peer are the described interfaces of its own cluster devices, one each |
| MemberMapping.MappingOfWellFormedPeers | opendut-carl/src/manager/cluster_manager/mod.rs:366-405 | members, total and the interfaces of each member are determined by the peers and devices alone, in whatever orders these were listed; each member has, for each of its cluster devices, an interface it describes under the id the device names, and no other interfaces |
| CanServerPorts.PortAllocator.DetermineCanServerPorts | opendut-carl/src/manager/cluster_manager/mod.rs:325-363 | one allocation, with every 16-bit overflow as a failure |
| CanServerPorts.AllocatedPorts | opendut-carl/src/manager/cluster_manager/mod.rs:325-363 | a successful allocation gives distinct ports of the range, and the counter stays in range |
| CanServerPorts.NoOverflow | opendut-carl/src/manager/cluster_manager/mod.rs:325-363 | with a proper range and room below two to the sixteenth no 16-bit operation overflows, and allocation succeeds exactly if the peers fit |
| CanServerPorts.CounterInRange | opendut-carl/src/manager/cluster_manager/mod.rs:325-363 | the counter is in range after any sequence of requests |
| CanServerPorts.WindowIntervals | opendut-carl/src/manager/cluster_manager/mod.rs:350-360 | the port intervals of two requests within the window lie one after the other |
| CanServerPorts.PortWindow | opendut-carl/src/manager/cluster_manager/mod.rs:350-360 | two successful allocations are disjoint whenever the requests from the one to the other plus the largest of them fit into the range |
| CanServerPorts.WindowIsSharp | opendut-carl/src/manager/cluster_manager/mod.rs:350-360 | the bound is best possible: for every size there are requests that exceed it by one port and collide |
| ClusterStar.MemberAssignmentsMeaning | opendut-carl/src/manager/cluster_manager/mod.rs:254-291 | assembling succeeds exactly if all members are online, and pairs each with its address and its port |
| ClusterStar.DeployedAssignmentWellFormed | opendut-carl/src/manager/cluster_manager/mod.rs:254-291 | what is sent out has distinct peers, contains its leader and has distinct ports |
| ClusterStar.LinkedIff | opendut-edgar/src/service/cluster_assignment.rs:142-166 | two members set up a link exactly if one of them is the leader |
| ClusterStar.LinksSymmetric | opendut-edgar/src/service/cluster_assignment.rs:142-166 | both ends set up the same links, independently |
| ClusterStar.Connected | opendut-edgar/src/service/cluster_assignment.rs:142-166 | any two members are connected by at most two links |
| ClusterStar.Acyclic | opendut-edgar/src/service/cluster_assignment.rs:142-166 | no distinct members are linked in a ring |
| ClusterStar.PortsPaired | opendut-edgar/src/service/cluster_assignment.rs:104-130 | every other member connects to the port on which the leader listens for it and for nobody else, and the leader's ports are pairwise distinct |
| ClusterStar.LeaderServesOthers | opendut-edgar/src/service/cluster_assignment.rs:112-119 | the leader has exactly one server for each other member |
| ClusterStar.CanLinksExistIff | opendut-edgar/src/service/cluster_assignment.rs:104-130 | setting up CAN links fails exactly if the peer or the leader is not among the assigned ones |
| ClusterStar.MemberTunnel | opendut-edgar/src/service/cluster_assignment.rs:16-46 | a member other than the leader has one tunnel, from its own address to the leader's, exactly if both are IPv4 |
| ClusterStar.LeaderTunnels | opendut-edgar/src/service/cluster_assignment.rs:16-46 | the leader has one tunnel for each other member, from its own address to a member's |
| ClusterStar.TunnelsMatch | opendut-edgar/src/service/cluster_assignment.rs:16-46 | the leader's tunnels exist exactly if all addresses are IPv4, and every tunnel then has its counterpart |
| NetbirdVpn.NetbirdManagementClient.Find | opendut-vpn/opendut-vpn-netbird/src/client/mod.rs:156-175 | a lookup by name succeeds exactly if one entry has the name and no fault occurs |
| NetbirdVpn.NetbirdManagementClient.DeleteCluster | opendut-vpn/opendut-vpn-netbird/src/lib.rs:133-193 | policy first, then group, with the error of each failing call |
| NetbirdVpn.NetbirdManagementClient.CreateCluster | opendut-vpn/opendut-vpn-netbird/src/lib.rs:99-130 | deletion, resolution of the peers, group and policy, stopping at the first failure and reporting it; a tidy success leaves exactly the group of the peers' representatives and its policy |
| NetbirdVpn.FirstPeerMeaning | opendut-vpn/opendut-vpn-netbird/src/lib.rs:114-122 | a peer is resolved exactly if it has one group of its own with a NetBird peer in it, to the first one of that group |
| NetbirdVpn.ResolvedMeaning | opendut-vpn/opendut-vpn-netbird/src/lib.rs:111-124 | all peers are resolved exactly if each of them is, in their order |
| NetbirdVpn.DeletionMeaning | opendut-vpn/opendut-vpn-netbird/src/lib.rs:133-193 | deleting keeps every cluster tidy however its calls fare, touches nothing else, and leaves nothing of the cluster if it succeeds |
| NetbirdVpn.NotFoundButPresentIff | opendut-vpn/opendut-vpn-netbird/src/lib.rs:138-145 | when a deletion answers "not found" although the group is still there |
| NetbirdVpn.CreateKeepsTidyIff | opendut-vpn/opendut-vpn-netbird/src/lib.rs:99-130 | creating keeps the cluster tidy exactly unless the deletion before it answers so, the peers resolve and the group is created; a tidy success is complete |
| NetbirdVpn.StepKeepsTidyIff | opendut-vpn/opendut-vpn-netbird/src/lib.rs:99-193 | at most one group, at most one policy and no policy without its group, for all clusters, is kept by every step but that one |
| NetbirdVpn.TidyInEveryRun | opendut-vpn/opendut-vpn-netbird/src/lib.rs:99-193 | that invariant in every run, however calls fail before or after their effect |
| NetbirdVpn.FaultFreeCreation | opendut-vpn/opendut-vpn-netbird/src/lib.rs:99-130 | a creation without faults succeeds exactly if nothing is ambiguous and every peer has one non-empty group of its own; then the cluster has one group, of the first NetBird peer of each member in their order, and one policy for it |
| NetbirdVpn.ConvergesAfterEveryRun | opendut-vpn/opendut-vpn-netbird/src/lib.rs:99-193 | whatever partial state a run leaves, the next creation without faults completes if all peers are found |
| NetbirdVpn.DefaultClientNeverDoubles | opendut-vpn/opendut-vpn-netbird/src/client/mod.rs:397-407 | whatever the service answers to the deletions of the default client, none is reported as not found, so the exception never occurs with it |
| NetbirdVpn.DefaultClientConverges | opendut-vpn/opendut-vpn-netbird/src/lib.rs:99-193 | so with the default client every run keeps all clusters tidy, and the next creation without faults completes if all peers are found |
| NetbirdVpn.IllegalStatusDoubles | opendut-vpn/opendut-vpn-netbird/src/lib.rs:139-148 | a client that does report it doubles the group of any existing cluster |
| NetbirdVpn.AmbiguousForever | opendut-vpn/opendut-vpn-netbird/src/lib.rs:99-193 | no step removes the ambiguity, and creation fails unless the deletion of the policy is once more reported as not found |
| NetbirdVpn.AmbiguousInEveryRun | opendut-vpn/opendut-vpn-netbird/src/lib.rs:99-193 | after any further steps the groups are still ambiguous and every creation by the default client fails |
| CannelloniTokens.CannelloniManager.MonitorProcess | opendut-edgar/src/service/cannelloni_manager.rs:80-98 | monitoring ends at the first turn that finds the child exited or else the token set |
| CannelloniTokens.CannelloniManager.Run | opendut-edgar/src/service/cannelloni_manager.rs:46-78 | the manager returns only after reading true or failing to spawn; each spawn but the first follows an exit, so at most one child exists |
| CannelloniTokens.ExitsCounted | opendut-edgar/src/service/cannelloni_manager.rs:80-89 | restarts are counted by the turns that find the child exited |
| CannelloniTokens.StopsUnlessAlwaysExited | opendut-edgar/src/service/cannelloni_manager.rs:46-98 | once asked to terminate, a manager stops at the first turn that does not find its child exited, and never if every turn does |
| CannelloniTokens.CanManager.TerminateCannelloniManagers | opendut-edgar/src/service/can_manager.rs:164-166 | sets the current token and no earlier one |
| CannelloniTokens.CanManager.ReplaceToken | opendut-edgar/src/service/can_manager.rs:172-173 | keeps all earlier managers asked to terminate exactly if the current ones were asked before the token is replaced |
| CannelloniTokens.CanManager.SetupRemoteRoutingClient | opendut-edgar/src/service/can_manager.rs:168-192 | a new generation of one client manager with a fresh false token; every earlier token is true |
| CannelloniTokens.CanManager.SetupRemoteRoutingServer | opendut-edgar/src/service/can_manager.rs:194-220 | a new generation with one server manager per remote, all sharing a fresh false token; every earlier token is true |
| CannelloniTokens.SetupRemoteRouting | opendut-edgar/src/service/cluster_assignment.rs:104-130 | one manager per link that the assignment gives the member, or an error and no new generation |
| CannelloniTokens.HandleAssignments | opendut-edgar/src/service/can_manager.rs:164-220 | after any sequence of assignments the token of a manager is true exactly if it belongs to an earlier set-up |

## Left out

- gRPC services, HTTP, TLS, telemetry, the command line and web clients: plumbing around the modelled operations.
- Token validation, OIDC registration and setup strings: the work is in libraries; whether they succeed is a parameter.
- The storage layers: a table is a map, a transaction commits or is dropped; encoding, files and diffs of stored models are not modelled.
- Shell commands, network interfaces, process spawning, clocks and timers: only their outcomes appear, as parameters.
- Navigation in ARXML files, transformation names and timing values: the extracted signals and groups are the input, and panics for missing required elements are not modelled.
- Negative initial values of signals are reported as a failure instead of looping forever.
- Identifiers, addresses and names are numbers or strings without their formats and validators.
- A call of `open` that is cancelled half-way, and a session task that waits for room in its outbound channel: steps always complete.
- A commit that fails after the closure of a manager operation succeeded, so that VPN and tables part: operations commit.
- Executors and bridge names in the configuration sent to a member, and parameters left in it from earlier rollouts: the accumulating setter is not part of this model.
- Concurrent clients and transparent retries in NetBird: a call takes effect at most once, and other actors leave the groups and policies of clusters alone.
- Setup keys and self-groups of peers in NetBird, apart from looking up a peer's first NetBird peer.
- Real-time concurrency of the termination token: a manager sees it as a sequence of values, one per turn of its loop.
- Proto conversions, length checks and the merging of configuration files: straight-line code.
