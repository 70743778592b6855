/**
 Cluster configurations, deployments, peer descriptors and the member states derived from them.
 Every operation of the managers is one step on the tables; see ClusterManager for the operations themselves.
 */
module Deployment {
  import opened Peers
  import opened Topology
  import opened Wrappers

  datatype Tables = Tables(configurations: map<ClusterId, ClusterConfiguration>, deployments: set<ClusterId>,
                           peers: map<PeerId, PeerDescriptor>, connections: map<PeerId, PeerConnectionState>)

  const EMPTY := Tables(map[], {}, map[], map[])

  datatype PeerMemberState = Available | Blocked(byCluster: ClusterId)

  datatype PeerState = PeerState(connection: PeerConnectionState, member: PeerMemberState)

  /** The panic of the consistency assertion while deriving member states. */
  datatype AssertionFailed = AssertionFailed

  // ---------------------------------------------------------------- derived member states

  predicate IsDeployed(t: Tables, c: ClusterId) {
    c in t.configurations && c in t.deployments
  }

  /** Peer `p` owns a device of the deployed cluster `c`. */
  predicate Uses(t: Tables, c: ClusterId, p: PeerId) {
    IsDeployed(t, c) && p in t.peers && Meets(t.peers[p], t.configurations[c].devices)
  }

  /** An order in which the hash maps may list the deployed clusters. */
  ghost predicate IsListing(t: Tables, order: seq<ClusterId>) {
    forall c :: c in order <==> IsDeployed(t, c)
  }

  /** The map of deployed devices; of two clusters with the same device, the one listed later wins. */
  function DeployedDevices(t: Tables, order: seq<ClusterId>): map<DeviceId, ClusterId> {
    if order == [] then map[]
    else
      var c := order[|order| - 1];
      var earlier := DeployedDevices(t, order[..|order| - 1]);
      if c in t.configurations then earlier + map d | d in t.configurations[c].devices :: c else earlier
  }

  function BlockedDevices(devices: seq<DeviceDescriptor>, deployed: map<DeviceId, ClusterId>): seq<ClusterId> {
    if devices == [] then []
    else
      var rest := BlockedDevices(devices[..|devices| - 1], deployed);
      var device := devices[|devices| - 1].id;
      if device in deployed then rest + [deployed[device]] else rest
  }

  function MemberStateOf(peer: PeerDescriptor, deployed: map<DeviceId, ClusterId>)
    : Result<PeerMemberState, AssertionFailed>
  {
    var blocked := BlockedDevices(peer.devices, deployed);
    if blocked == [] then Success(Available)
    else if forall i :: 0 <= i < |blocked| ==> blocked[i] == blocked[0] then Success(Blocked(blocked[0]))
    else Failure(AssertionFailed)
  }

  function ListPeerMemberStates(t: Tables, order: seq<ClusterId>)
    : Result<map<PeerId, PeerMemberState>, AssertionFailed>
  {
    var deployed := DeployedDevices(t, order);
    if forall p :: p in t.peers ==> MemberStateOf(t.peers[p], deployed).Success? then
      Success(map p | p in t.peers :: MemberStateOf(t.peers[p], deployed).value)
    else Failure(AssertionFailed)
  }

  function ListPeerStates(t: Tables, order: seq<ClusterId>): Result<map<PeerId, PeerState>, AssertionFailed> {
    var members :- ListPeerMemberStates(t, order);
    Success(map p | p in members :: PeerState(if p in t.connections then t.connections[p] else Offline, members[p]))
  }

  // ---------------------------------------------------------------- states of the peers of one cluster

  datatype ListError = ClusterNotFound | Panicked

  function ListClusterPeers(t: Tables, c: ClusterId): Result<set<PeerId>, ListError> {
    if c !in t.configurations then Failure(ClusterNotFound)
    else Success(set p | p in t.peers && Meets(t.peers[p], t.configurations[c].devices))
  }

  datatype ClusterDeployable = AllPeersAvailable | AlreadyDeployed | NotAllPeersAvailable(unavailablePeers: set<PeerId>)

  datatype ClusterPeerStates = ClusterPeerStates(blockedPeers: map<PeerId, ClusterId>, offlinePeers: set<PeerId>,
                                                 blockedByAnother: map<PeerId, ClusterId>, onlyBlockedBySelf: bool)
  {
    static function New(c: ClusterId, states: map<PeerId, PeerState>): ClusterPeerStates {
      var blocked := map p | p in states && states[p].member.Blocked? :: states[p].member.byCluster;
      ClusterPeerStates(
        blocked,
        set p | p in states && states[p].connection.Offline?,
        map p | p in blocked && blocked[p] != c :: blocked[p],
        forall p :: p in blocked ==> blocked[p] == c)
    }

    function CheckClusterDeployable(): ClusterDeployable {
      var unavailable := blockedPeers.Keys + offlinePeers;
      if unavailable == {} then AllPeersAvailable
      else if onlyBlockedBySelf && offlinePeers == {} then AlreadyDeployed
      else NotAllPeersAvailable(unavailable)
    }

    function CheckAllPeersAreAvailableNotNecessarilyOnline(): ClusterDeployable {
      if blockedPeers.Keys == {} then AllPeersAvailable
      else if onlyBlockedBySelf then AlreadyDeployed
      else NotAllPeersAvailable(blockedByAnother.Keys)
    }
  }

  function ListClusterPeerStates(t: Tables, order: seq<ClusterId>, c: ClusterId): Result<ClusterPeerStates, ListError> {
    var clusterPeers :- ListClusterPeers(t, c);
    match ListPeerStates(t, order)
    case Failure(_) => Failure(Panicked)
    case Success(states) =>
      Success(ClusterPeerStates.New(c, map p | p in states && p in clusterPeers :: states[p]))
  }

  // ---------------------------------------------------------------- manager operations as steps

  datatype OperationError =
    | UnknownCluster
    | IllegalPeerState(invalidPeers: set<PeerId>)
    | DeploymentNotFound
    | ConfigurationNotFound
    | DeploymentFound
    | PeerNotFound
    | DeploymentExists(byCluster: ClusterId)
    | ExternalFailure
    | PersistenceFailure
    | Panic

  /**
   `order` is the listing order met by an operation that derives member states; `external` the outcome of VPN and OIDC,
   `stored` that of storing.
   */
  datatype Step =
    | StoreDeployment(c: ClusterId, order: seq<ClusterId>)
    | DeleteDeployment(c: ClusterId, external: bool)
    | StoreConfiguration(c: ClusterId, configuration: ClusterConfiguration)
    | DeleteConfiguration(c: ClusterId)
    | StorePeer(descriptor: PeerDescriptor, external: bool, stored: bool)
    | DeletePeer(p: PeerId, order: seq<ClusterId>, external: bool)
    | ChangeConnection(p: PeerId, connection: Option<PeerConnectionState>)

  function Outcome(t: Tables, step: Step): Result<Tables, OperationError> {
    match step
    case StoreDeployment(c, order) =>
      (match ListClusterPeerStates(t, order, c)
       case Failure(ClusterNotFound) => Failure(UnknownCluster)
       case Failure(Panicked) => Failure(Panic)
       case Success(states) =>
         match states.CheckAllPeersAreAvailableNotNecessarilyOnline()
         case AllPeersAvailable => Success(t.(deployments := t.deployments + {c}))
         case AlreadyDeployed => Success(t)
         case NotAllPeersAvailable(unavailable) => Failure(IllegalPeerState(unavailable)))
    case DeleteDeployment(c, external) =>
      if c !in t.deployments then Failure(DeploymentNotFound)
      else if c in t.configurations && !external then Failure(ExternalFailure)
      else Success(t.(deployments := t.deployments - {c}))
    case StoreConfiguration(c, configuration) => Success(t.(configurations := t.configurations[c := configuration]))
    case DeleteConfiguration(c) =>
      if c in t.deployments then Failure(DeploymentFound)
      else if c !in t.configurations then Failure(ConfigurationNotFound)
      else Success(t.(configurations := t.configurations - {c}))
    case StorePeer(descriptor, external, stored) =>
      if descriptor.id !in t.peers && !external then Failure(ExternalFailure)
      else if !stored then Failure(PersistenceFailure)
      else Success(t.(peers := t.peers[descriptor.id := descriptor]))
    case DeletePeer(p, order, external) =>
      (match ListPeerMemberStates(t, order)
       case Failure(_) => Failure(Panic)
       case Success(members) =>
         if p in members && members[p].Blocked? then Failure(DeploymentExists(members[p].byCluster))
         else if p !in t.peers then Failure(PeerNotFound)
         else if !external then Failure(ExternalFailure)
         else Success(t.(peers := t.peers - {p})))
    case ChangeConnection(p, connection) =>
      Success(t.(connections := if connection.Some? then t.connections[p := connection.value] else t.connections - {p}))
  }

  /** A failing operation is rolled back. */
  function Apply(t: Tables, step: Step): Tables {
    match Outcome(t, step)
    case Success(t') => t'
    case Failure(_) => t
  }

  ghost predicate Enabled(t: Tables, step: Step) {
    match step
    case StoreDeployment(_, order) => IsListing(t, order)
    case DeletePeer(_, order, _) => IsListing(t, order)
    case _ => true
  }

  // ---------------------------------------------------------------- exclusivity

  /** Every deployment has a configuration, and no peer is used by two deployed clusters. */
  ghost predicate Exclusive(t: Tables) {
    && t.deployments <= t.configurations.Keys
    && forall c, c', p :: Uses(t, c, p) && Uses(t, c', p) ==> c == c'
  }

  lemma {:induction false} DeployedDevicesMeaning(t: Tables, order: seq<ClusterId>, d: DeviceId)
    ensures d in DeployedDevices(t, order) <==>
            exists c :: c in order && c in t.configurations && d in t.configurations[c].devices
    ensures d in DeployedDevices(t, order) ==>
              var c := DeployedDevices(t, order)[d];
              c in order && c in t.configurations && d in t.configurations[c].devices
  {
    if order != [] {
      var front, last := order[..|order| - 1], order[|order| - 1];
      assert order == front + [last];
      DeployedDevicesMeaning(t, front, d);
    }
  }

  lemma {:induction false} BlockedDevicesMeaning(devices: seq<DeviceDescriptor>, deployed: map<DeviceId, ClusterId>,
                                                 c: ClusterId)
    ensures c in BlockedDevices(devices, deployed) <==>
            exists i :: 0 <= i < |devices| && devices[i].id in deployed && deployed[devices[i].id] == c
  {
    if devices != [] {
      var front, last := devices[..|devices| - 1], devices[|devices| - 1];
      assert devices == front + [last];
      BlockedDevicesMeaning(front, deployed, c);
      assert forall i :: 0 <= i < |front| ==> front[i] == devices[i];
      assert devices[|devices| - 1] == last;
    }
  }

  /** A peer's devices are blocked by exactly the deployed clusters that use it, provided there is at most one. */
  lemma BlockedByUser(t: Tables, order: seq<ClusterId>, p: PeerId, c: ClusterId)
    requires Exclusive(t) && IsListing(t, order) && p in t.peers
    ensures c in BlockedDevices(t.peers[p].devices, DeployedDevices(t, order)) <==> Uses(t, c, p)
  {
    var deployed := DeployedDevices(t, order);
    var devices := t.peers[p].devices;
    BlockedDevicesMeaning(devices, deployed, c);
    if Uses(t, c, p) {
      var i :| 0 <= i < |devices| && devices[i].id in t.configurations[c].devices;
      DeployedDevicesMeaning(t, order, devices[i].id);
      assert Uses(t, deployed[devices[i].id], p);
    }
    if c in BlockedDevices(devices, deployed) {
      var i :| 0 <= i < |devices| && devices[i].id in deployed && deployed[devices[i].id] == c;
      DeployedDevicesMeaning(t, order, devices[i].id);
    }
  }

  /**
   Under exclusivity the assertion never fires, and whatever the listing order, a peer is blocked by a cluster exactly
   if that cluster is deployed with one of the peer's devices.
   */
  lemma MemberStatesExact(t: Tables, order: seq<ClusterId>)
    requires Exclusive(t) && IsListing(t, order)
    ensures var r := ListPeerMemberStates(t, order);
            && r.Success? && r.value.Keys == t.peers.Keys
            && (forall p, c :: p in t.peers ==> (r.value[p] == Blocked(c) <==> Uses(t, c, p)))
  {
    var deployed := DeployedDevices(t, order);
    forall p | p in t.peers
      ensures MemberStateOf(t.peers[p], deployed).Success?
      ensures forall c :: MemberStateOf(t.peers[p], deployed).value == Blocked(c) <==> Uses(t, c, p)
    {
      var blocked := BlockedDevices(t.peers[p].devices, deployed);
      forall c
        ensures c in blocked <==> Uses(t, c, p)
      {
        BlockedByUser(t, order, p, c);
      }
      assert forall i :: 0 <= i < |blocked| ==> Uses(t, blocked[i], p);
      assert forall c :: Uses(t, c, p) ==> blocked != [] && blocked[0] == c;
    }
  }

  /** A peer can be deleted exactly while no deployed cluster uses it; a user is named, and all other peers stay. */
  lemma PeerDeletionIff(t: Tables, p: PeerId, order: seq<ClusterId>, external: bool)
    requires Exclusive(t) && IsListing(t, order)
    ensures var r := Outcome(t, DeletePeer(p, order, external));
            && (r.Success? <==> p in t.peers && external && forall c :: !Uses(t, c, p))
            && (forall c :: Uses(t, c, p) ==> r == Failure(DeploymentExists(c)))
            && (p !in t.peers ==> r == Failure(PeerNotFound))
            && (p in t.peers && (forall c :: !Uses(t, c, p)) && !external ==> r == Failure(ExternalFailure))
            && Apply(t, DeletePeer(p, order, external)) == if r.Success? then t.(peers := t.peers - {p}) else t
  {
    MemberStatesExact(t, order);
    hide ListPeerMemberStates;
    var members := ListPeerMemberStates(t, order).value;
    if p in members && members[p].Blocked? {
      assert Uses(t, members[p].byCluster, p);
    }
  }

  predicate WouldUse(t: Tables, c: ClusterId, descriptor: PeerDescriptor) {
    IsDeployed(t, c) && Meets(descriptor, t.configurations[c].devices)
  }

  /** What must hold before a step so that exclusivity holds after it. Only the two unguarded stores need anything. */
  ghost predicate Guard(t: Tables, step: Step) {
    match step
    case StoreConfiguration(c, configuration) =>
      c in t.deployments ==>
        forall p, c' :: c' != c && Uses(t, c', p) ==> !Meets(t.peers[p], configuration.devices)
    case StorePeer(descriptor, external, stored) =>
      Outcome(t, step).Success? ==>
        forall c, c' :: WouldUse(t, c, descriptor) && WouldUse(t, c', descriptor) ==> c == c'
    case _ => true
  }

  lemma StoredDeploymentExclusive(t: Tables, c: ClusterId, order: seq<ClusterId>)
    requires Exclusive(t) && IsListing(t, order)
    ensures Exclusive(Apply(t, StoreDeployment(c, order)))
  {
    var t' := Apply(t, StoreDeployment(c, order));
    if t' != t {
      MemberStatesExact(t, order);
      StoreAcceptsOnlyUnused(t, c, order);
      forall a, b, p | Uses(t', a, p) && Uses(t', b, p)
        ensures a == b
      {
        assert a != c ==> Uses(t, a, p);
        assert b != c ==> Uses(t, b, p);
      }
    }
  }

  /** A deployment is newly stored only if none of the cluster's peers is used by any deployed cluster. */
  lemma StoreAcceptsOnlyUnused(t: Tables, c: ClusterId, order: seq<ClusterId>)
    requires Exclusive(t) && IsListing(t, order)
    requires Outcome(t, StoreDeployment(c, order)).Success? && Apply(t, StoreDeployment(c, order)) != t
    ensures c in t.configurations && c !in t.deployments
    ensures Apply(t, StoreDeployment(c, order)).deployments == t.deployments + {c}
    ensures forall p, other :: p in t.peers && Meets(t.peers[p], t.configurations[c].devices) ==> !Uses(t, other, p)
  {
    MemberStatesExact(t, order);
    var states := ListPeerStates(t, order).value;
    var peers := ListClusterPeers(t, c).value;
    var selected := map p | p in states && p in peers :: states[p];
    var clusterStates := ClusterPeerStates.New(c, selected);
    assert clusterStates.blockedPeers.Keys == {};
    forall p, other | p in t.peers && Meets(t.peers[p], t.configurations[c].devices)
      ensures !Uses(t, other, p)
    {
      assert p in selected && p !in clusterStates.blockedPeers;
    }
  }

  lemma StepKeepsExclusiveIff(t: Tables, step: Step)
    requires Exclusive(t) && Enabled(t, step)
    ensures Exclusive(Apply(t, step)) <==> Guard(t, step)
  {
    var t' := Apply(t, step);
    match step {
      case StoreDeployment(c, order) =>
        StoredDeploymentExclusive(t, c, order);
      case StoreConfiguration(c, configuration) =>
        StoredConfigurationExclusiveIff(t, c, configuration);
      case StorePeer(descriptor, external, stored) =>
        StoredPeerExclusiveIff(t, descriptor, external, stored);
      case _ =>
        assert forall c, p :: Uses(t', c, p) ==> Uses(t, c, p);
    }
  }

  lemma StoredConfigurationExclusiveIff(t: Tables, c: ClusterId, configuration: ClusterConfiguration)
    requires Exclusive(t)
    ensures Exclusive(Apply(t, StoreConfiguration(c, configuration))) <==>
              Guard(t, StoreConfiguration(c, configuration))
  {
    var t' := Apply(t, StoreConfiguration(c, configuration));
    assert forall other, p :: other != c ==> Uses(t', other, p) == Uses(t, other, p);
    assert forall p :: Uses(t', c, p) <==>
             c in t.deployments && p in t.peers && Meets(t.peers[p], configuration.devices);
    if !Guard(t, StoreConfiguration(c, configuration)) {
      var p, other :| other != c && Uses(t, other, p) && Meets(t.peers[p], configuration.devices);
      assert Uses(t', other, p) && Uses(t', c, p);
    }
  }

  lemma StoredPeerExclusiveIff(t: Tables, descriptor: PeerDescriptor, external: bool, stored: bool)
    requires Exclusive(t)
    ensures Exclusive(Apply(t, StorePeer(descriptor, external, stored))) <==>
              Guard(t, StorePeer(descriptor, external, stored))
  {
    var t' := Apply(t, StorePeer(descriptor, external, stored));
    var p := descriptor.id;
    assert forall c, other :: other != p ==> Uses(t', c, other) == Uses(t, c, other);
    if Outcome(t, StorePeer(descriptor, external, stored)).Success? {
      assert forall c :: Uses(t', c, p) == WouldUse(t, c, descriptor);
    }
  }

  // ---------------------------------------------------------------- runs

  function After(t: Tables, steps: seq<Step>): Tables {
    if steps == [] then t else Apply(After(t, steps[..|steps| - 1]), steps[|steps| - 1])
  }

  ghost predicate IsGuardedRun(t: Tables, steps: seq<Step>) {
    steps == [] ||
    (var front, last := steps[..|steps| - 1], steps[|steps| - 1];
     IsGuardedRun(t, front) && Enabled(After(t, front), last) && Guard(After(t, front), last))
  }

  /** Exclusivity in every run from empty tables whose unguarded stores respect the guard. */
  lemma {:induction false} ExclusiveInEveryRun(steps: seq<Step>)
    requires IsGuardedRun(EMPTY, steps)
    ensures Exclusive(After(EMPTY, steps))
  {
    if steps != [] {
      ExclusiveInEveryRun(steps[..|steps| - 1]);
      StepKeepsExclusiveIff(After(EMPTY, steps[..|steps| - 1]), steps[|steps| - 1]);
    }
  }

  /** Storing configurations only for clusters that are not deployed is enough to respect the guard. */
  lemma UndeployedStoreIsGuarded(t: Tables, c: ClusterId, configuration: ClusterConfiguration)
    requires c !in t.deployments
    ensures Guard(t, StoreConfiguration(c, configuration))
  {
  }
}
