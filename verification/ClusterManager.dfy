/**
 The operations of CARL's managers on the stored tables. Each is proved to be one step of Deployment, and rolling out a
 cluster is proved to hand its members an assignment on which they can set up their links.
 */
module ClusterManager {
  import opened Peers
  import opened Topology
  import opened Wrappers
  import opened Deployment
  import opened Rollout
  import MemberMapping
  import CanServerPorts
  import ClusterStar
  import PeerBroker

  datatype DeployError =
    | NoPeerStates(listError: ListError)
    | ClusterConfigurationNotFound
    | NoInterfaceMapping(mappingError: MemberMapping.MappingError)
    | VpnFailure
    | NoCanServerPorts(portError: CanServerPorts.PortError)
    | MemberNotOnline(member: PeerId)
    | AssignmentFailed(member: PeerId)
    | NoPeerDescriptor

  /** What the VPN service and the members' sessions do during a rollout. */
  datatype Surroundings = Surroundings(vpn: bool, unreachable: set<PeerId>)

  /** How a call to an external service ends: a failure may come before or after it took effect. */
  datatype External = Done | FailedWithoutEffect | FailedWithEffect

  // ---------------------------------------------------------------- listing hash tables in some order

  predicate IsOrderOf<T(==)>(order: seq<T>, elements: set<T>) {
    && |order| == |elements|
    && ClusterStar.Distinct(order)
    && (forall i :: 0 <= i < |order| ==> order[i] in elements)
    && (forall x :: x in elements ==> x in order)
  }

  method InSomeOrder<T(==)>(elements: set<T>) returns (order: seq<T>)
    ensures IsOrderOf(order, elements)
    ensures forall x :: x in order <==> x in elements
  {
    order := [];
    var rest := elements;
    while rest != {}
      invariant rest <= elements && |order| + |rest| == |elements|
      invariant forall x :: x in order <==> x in elements - rest
      invariant ClusterStar.Distinct(order) && forall i :: 0 <= i < |order| ==> order[i] in elements
      decreases rest
    {
      var x :| x in rest;
      assert x !in order;
      order := order + [x];
      rest := rest - {x};
    }
  }

  ghost predicate IsPeerListing(listed: seq<PeerDescriptor>, peers: map<PeerId, PeerDescriptor>) {
    forall peer :: peer in listed <==> peer in peers.Values
  }

  method ListPeers(peers: map<PeerId, PeerDescriptor>) returns (listed: seq<PeerDescriptor>)
    ensures IsPeerListing(listed, peers)
  {
    listed := InSomeOrder(peers.Values);
  }

  // ---------------------------------------------------------------- what a rollout needs

  /** The members of a cluster: its leader, and for each of its devices the peer that is found first. */
  function MembersOf(listed: seq<PeerDescriptor>, configuration: ClusterConfiguration): set<PeerId> {
    {configuration.leader}
    + set device | device in configuration.devices && MemberMapping.Contribution(listed, device).Success? ::
        MemberMapping.Contribution(listed, device).value.0
  }

  predicate IsMemberOf(listed: seq<PeerDescriptor>, configuration: ClusterConfiguration, p: PeerId) {
    p in MembersOf(listed, configuration)
  }

  /** Everything in the stored tables that a rollout of the configuration depends on. */
  ghost predicate MembersReady(t: Tables, listed: seq<PeerDescriptor>, configuration: ClusterConfiguration,
                               unreachable: set<PeerId>) {
    && MembersOnline(t, listed, configuration)
    && (forall p :: IsMemberOf(listed, configuration, p) ==> p in t.peers && p !in unreachable)
  }

  ghost predicate MembersOnline(t: Tables, listed: seq<PeerDescriptor>, configuration: ClusterConfiguration) {
    && (forall device :: device in configuration.devices ==> MemberMapping.Contribution(listed, device).Success?)
    && (forall p :: IsMemberOf(listed, configuration, p) ==> IsOnline(t, p))
  }

  /** The assignment a rollout produces: one entry per member, with its address and a port of its own. */
  ghost predicate IsAssignment(a: ClusterStar.ClusterAssignment, t: Tables, listed: seq<PeerDescriptor>,
                               configuration: ClusterConfiguration, start: nat, end: nat) {
    && a.leader == configuration.leader
    && ClusterStar.WellFormed(a) && ClusterStar.DistinctPorts(a)
    && (forall p :: ClusterStar.IsMember(a, p) <==> IsMemberOf(listed, configuration, p))
    && EntriesAreOnline(t, a.assignments, start, end)
  }

  ghost predicate EntriesAreOnline(t: Tables, entries: seq<ClusterStar.PeerClusterAssignment>, start: nat, end: nat) {
    forall i :: 0 <= i < |entries| ==>
                  && start <= entries[i].canServerPort < end
                  && IsOnline(t, entries[i].peerId)
                  && entries[i].vpnAddress == t.connections[entries[i].peerId].remoteHost
  }

  /** What a rollout error says about the stored tables, the surroundings and the ports left. */
  ghost predicate Explained(error: DeployError, t: Tables, listed: seq<PeerDescriptor>,
                            configuration: ClusterConfiguration,
                            around: Surroundings, granted: Result<seq<CanServerPorts.Port>, CanServerPorts.PortError>)
  {
    match error
    case NoInterfaceMapping(e) =>
      e.device in configuration.devices && MemberMapping.Contribution(listed, e.device) == Failure(e)
    case VpnFailure => !around.vpn
    case NoCanServerPorts(e) => granted == Failure(e)
    case MemberNotOnline(p) => IsMemberOf(listed, configuration, p) && !IsOnline(t, p)
    case AssignmentFailed(p) => IsMemberOf(listed, configuration, p) && (p !in t.peers || p in around.unreachable)
    case _ => false
  }

  /** What the port allocator answers when asked for one port per member. */
  function Grant(start: nat, end: nat, counter: nat, listed: seq<PeerDescriptor>, configuration: ClusterConfiguration)
    : CanServerPorts.Allocation
  {
    CanServerPorts.Allocate(start, end, counter, |MembersOf(listed, configuration)|)
  }

  function PortsOf(a: ClusterStar.ClusterAssignment): (ports: seq<CanServerPorts.Port>)
    ensures |ports| == |a.assignments|
  {
    seq(|a.assignments|, i requires 0 <= i < |a.assignments| => a.assignments[i].canServerPort)
  }

  /** What a member is sent and what is stored about it. */
  datatype MemberConfiguration = MemberConfiguration(assignment: ClusterStar.ClusterAssignment,
                                                     interfaces: seq<NetworkInterface>)

  /** Every member gets the same assignment, and the interfaces of its own cluster devices. */
  ghost predicate IsRollout(sent: map<PeerId, MemberConfiguration>, a: ClusterStar.ClusterAssignment,
                            listed: seq<PeerDescriptor>, configuration: ClusterConfiguration) {
    && sent.Keys == MembersOf(listed, configuration)
    && (forall p :: p in sent ==>
                      && sent[p].assignment == a
                      && multiset(sent[p].interfaces) == MemberMapping.Gathered(listed, configuration.devices, p))
    && (MemberMapping.WellFormed(listed) ==> CarriesInterfaces(sent, listed, configuration))
  }

  /** Each peer is sent the interfaces that its cluster devices name, and no others. */
  ghost predicate CarriesInterfaces(sent: map<PeerId, MemberConfiguration>, listed: seq<PeerDescriptor>,
                                    configuration: ClusterConfiguration) {
    forall peer :: peer in listed && peer.id in sent ==>
                     MemberMapping.HasInterfaces(peer, configuration.devices, multiset(sent[peer.id].interfaces))
  }

  // ---------------------------------------------------------------- who is sent what before assigning fails

  predicate IsAvailable(p: PeerId, stored: set<PeerId>, unreachable: set<PeerId>) {
    p in stored && p !in unreachable
  }

  /** The number of members before the first one that cannot be assigned. */
  function CountReached(order: seq<PeerId>, stored: set<PeerId>, unreachable: set<PeerId>): (n: nat)
    ensures n <= |order|
    ensures forall i :: 0 <= i < n ==> IsAvailable(order[i], stored, unreachable)
    ensures n < |order| ==> !IsAvailable(order[n], stored, unreachable)
  {
    if order == [] || !IsAvailable(order[0], stored, unreachable) then 0
    else 1 + CountReached(order[1..], stored, unreachable)
  }

  /** Exactly the members before the first one that cannot be assigned have been sent something. */
  ghost predicate SentInOrder(sent: set<PeerId>, order: seq<PeerId>, stored: set<PeerId>, unreachable: set<PeerId>) {
    SentFirst(sent, order, CountReached(order, stored, unreachable))
  }

  predicate SentFirst(sent: set<PeerId>, order: seq<PeerId>, n: nat)
    requires n <= |order|
  {
    && (forall i :: 0 <= i < n ==> order[i] in sent)
    && (forall p :: p in sent ==> p in order[..n])
  }

  // ---------------------------------------------------------------- the manager

  class ClusterManager {
    var configurations: map<ClusterId, ClusterConfiguration>
    var deployments: set<ClusterId>
    var peers: map<PeerId, PeerDescriptor>
    var connections: map<PeerId, PeerConnectionState>
    /** What is stored as the last configuration of each peer. */
    var current: map<PeerId, MemberConfiguration>
    /** What each peer was last sent, which no rollback undoes. */
    var received: map<PeerId, MemberConfiguration>
    /** The peers known to the VPN service. */
    var vpnPeers: set<PeerId>
    /** The clusters that were attempted to be rolled out, in order. */
    var attempts: seq<ClusterId>
    const ports: CanServerPorts.PortAllocator

    constructor (start: nat, end: nat)
      ensures Contents() == EMPTY && current == map[] && received == map[] && vpnPeers == {} && attempts == []
      ensures fresh(ports) && ports.start == start && ports.end == end && ports.counter == start
    {
      configurations, deployments, peers, connections := map[], {}, map[], map[];
      current, received, vpnPeers, attempts := map[], map[], {}, [];
      ports := new CanServerPorts.PortAllocator(start, end);
    }

    function Contents(): Tables
      reads this
    {
      Tables(configurations, deployments, peers, connections)
    }

    /** The VPN service knows exactly the stored peers. */
    ghost predicate VpnInStep()
      reads this
    {
      vpnPeers == peers.Keys
    }

    method ListDeployedClusters() returns (order: seq<ClusterId>)
      ensures IsListing(Contents(), order)
    {
      order := InSomeOrder(configurations.Keys * deployments);
    }

    // -------------------------------------------------------------- rolling out

    method DeployCluster(c: ClusterId, around: Surroundings)
      returns (r: Result<ClusterStar.ClusterAssignment, DeployError>, ghost listed: seq<PeerDescriptor>,
               ghost order: seq<PeerId>, ghost sent: map<PeerId, MemberConfiguration>)
      requires CanServerPorts.InRange(ports.start, ports.end, ports.counter)
      modifies this`attempts, this`current, this`received, ports
      ensures Contents() == old(Contents()) && attempts == old(attempts) + [c]
      ensures CanServerPorts.InRange(ports.start, ports.end, ports.counter)
      ensures IsPeerListing(listed, peers)
      ensures r.Success? ==>
                && c in configurations && around.vpn
                && MembersReady(Contents(), listed, configurations[c], around.unreachable)
                && IsAssignment(r.value, Contents(), listed, configurations[c], ports.start, ports.end)
                && IsRollout(sent, r.value, listed, configurations[c]) && current == old(current) + sent
      ensures r.Success? ==>
                CanServerPorts.Allocation(Success(PortsOf(r.value)), ports.counter)
                == Grant(ports.start, ports.end, old(ports.counter), listed, configurations[c])
      ensures received == old(received) + sent
      ensures r.Failure? ==> current == old(current) && (!r.error.AssignmentFailed? ==> sent == map[])
      ensures r.Success? || r.error.AssignmentFailed? ==>
                && c in configurations && IsOrderOf(order, MembersOf(listed, configurations[c]))
                && SentInOrder(sent.Keys, order, peers.Keys, around.unreachable)
      ensures r.Failure? && c in configurations ==>
                var allocation := Grant(ports.start, ports.end, old(ports.counter), listed, configurations[c]);
                && Explained(r.error, Contents(), listed, configurations[c], around, allocation.ports)
                && ports.counter in {old(ports.counter), allocation.counter}
      ensures r.Failure? && c !in configurations ==> r.error == ClusterConfigurationNotFound
    {
      attempts := attempts + [c];
      order, sent := [], map[];
      assert received + sent == received;
      var allPeers := ListPeers(peers);
      listed := allPeers;
      if c !in configurations {
        return Failure(ClusterConfigurationNotFound), listed, order, sent;
      }
      hide MembersOf, MembersOnline, MembersReady, Explained, IsAssignment, IsRollout, IsPeerListing, PortsOf;
      hide CanServerPorts.InRange, Grant, MemberMapping.IsMapping, SentInOrder, IsOrderOf, FailedAt;
      var determined, mapping := DetermineAssignment(configurations[c], allPeers, around);
      if determined.Failure? {
        return determined, listed, order, sent;
      }
      var a := determined.value;
      var failed;
      failed, order, sent := AssignMembers(mapping, a, around.unreachable);
      AssigningMeaning(Contents(), listed, configurations[c], around, failed, order);
      if failed.Some? {
        return Failure(AssignmentFailed(failed.value)), listed, order, sent;
      }
      SentToMembers(sent, mapping, a, listed, configurations[c], order, peers.Keys, around.unreachable);
      r := Success(a);
    }

    /** Determines the members and what to send them. The ports stay reserved if a member turns out to be offline. */
    method DetermineAssignment(configuration: ClusterConfiguration, listed: seq<PeerDescriptor>, around: Surroundings)
      returns (r: Result<ClusterStar.ClusterAssignment, DeployError>, mapping: MemberMapping.Mapping)
      requires CanServerPorts.InRange(ports.start, ports.end, ports.counter)
      modifies ports
      ensures CanServerPorts.InRange(ports.start, ports.end, ports.counter)
      ensures r.Success? ==>
                && around.vpn && mapping.Keys == MembersOf(listed, configuration)
                && MemberMapping.IsMapping(mapping, listed, configuration.devices, configuration.leader)
                && MembersOnline(Contents(), listed, configuration)
                && IsAssignment(r.value, Contents(), listed, configuration, ports.start, ports.end)
                && CanServerPorts.Allocation(Success(PortsOf(r.value)), ports.counter)
                   == Grant(ports.start, ports.end, old(ports.counter), listed, configuration)
      ensures r.Failure? ==>
                var allocation := Grant(ports.start, ports.end, old(ports.counter), listed, configuration);
                && !r.error.AssignmentFailed?
                && Explained(r.error, Contents(), listed, configuration, around, allocation.ports)
                && ports.counter in {old(ports.counter), allocation.counter}
    {
      hide MemberMapping.IsMapping, MemberMapping.Contribution, ClusterStar.MemberAssignments, IsAssignment, MembersOf;
      mapping := map[];
      var mapped := MemberMapping.DetermineMemberInterfaceMapping(configuration.devices, listed, configuration.leader);
      if mapped.Failure? {
        return Failure(NoInterfaceMapping(mapped.error)), mapping;
      }
      mapping := mapped.value;
      MappedAreMembers(mapping, listed, configuration);
      if !around.vpn {
        return Failure(VpnFailure), mapping;
      }
      var order := InSomeOrder(mapping.Keys);
      ghost var counter := ports.counter;
      var serverPorts := ports.DetermineCanServerPorts(|order|);
      CanServerPorts.AllocatedPorts(ports.start, ports.end, counter, |order|);
      hide CanServerPorts.Allocate, CanServerPorts.InRange;
      if serverPorts.Failure? {
        return Failure(NoCanServerPorts(serverPorts.error)), mapping;
      }
      var assignments := ClusterStar.MemberAssignments(order, serverPorts.value, connections);
      AssemblesIff(Contents(), mapping, order, serverPorts.value);
      if assignments.Failure? {
        return Failure(MemberNotOnline(assignments.error)), mapping;
      }
      AssembledAssignment(Contents(), listed, configuration, mapping, order, ports.start, ports.end, counter);
      r := Success(ClusterStar.ClusterAssignment(configuration.leader, assignments.value));
      assert PortsOf(r.value) == serverPorts.value;
    }

    /**
     One transaction: if a member cannot be assigned, nothing is stored, but those before it have been sent theirs.
     */
    method AssignMembers(mapping: MemberMapping.Mapping, a: ClusterStar.ClusterAssignment, unreachable: set<PeerId>)
      returns (failed: Option<PeerId>, ghost order: seq<PeerId>, ghost sent: map<PeerId, MemberConfiguration>)
      modifies this`current, this`received
      ensures IsOrderOf(order, mapping.Keys)
      ensures failed == FailedAt(order, peers.Keys, unreachable)
      ensures SentInOrder(sent.Keys, order, peers.Keys, unreachable)
      ensures forall p :: p in sent ==> p in mapping && sent[p] == MemberConfiguration(a, mapping[p])
      ensures received == old(received) + sent
      ensures current == if failed.None? then old(current) + sent else old(current)
    {
      hide IsOrderOf, CountReached, SentInOrder, FailedAt, AssignedFirst;
      ghost var stored := peers.Keys;
      var before := current;
      var members := InSomeOrder(mapping.Keys);
      order, sent := members, map[];
      NothingAssigned(mapping, a, members, stored, unreachable);
      for i := 0 to |members|
        invariant AssignedFirst(sent, mapping, a, members, i, stored, unreachable)
        invariant current == before + sent && received == old(received) + sent
      {
        var p := members[i];
        assert p in members;
        var configuration := MemberConfiguration(a, mapping[p]);
        current := current[p := configuration];
        if p !in peers || p in unreachable {
          current := before;
          AssigningEnds(sent, mapping, a, members, i, stored, unreachable);
          return Some(p), order, sent;
        }
        OneMoreAssigned(sent, mapping, a, members, i, stored, unreachable);
        MergeOneMore(before, sent, p, configuration);
        MergeOneMore(old(received), sent, p, configuration);
        received := received[p := configuration];
        sent := sent[p := configuration];
      }
      AssigningEnds(sent, mapping, a, members, |members|, stored, unreachable);
      failed := None;
    }

    method DeployClusterIfAllPeersAvailable(c: ClusterId, around: Surroundings)
      returns (r: Result<(), DeployError>, ghost order: seq<ClusterId>)
      requires CanServerPorts.InRange(ports.start, ports.end, ports.counter)
      modifies this`attempts, this`current, this`received, ports
      ensures Contents() == old(Contents())
      ensures CanServerPorts.InRange(ports.start, ports.end, ports.counter)
      ensures IsListing(Contents(), order)
      ensures attempts == old(attempts) + if RollsOut(Contents(), order, c) then [c] else []
      ensures !RollsOut(Contents(), order, c) ==>
                current == old(current) && received == old(received)
                && (r.Failure? <==> ListClusterPeerStates(Contents(), order, c).Failure?)
    {
      var listed := ListDeployedClusters();
      order := listed;
      var states := ListClusterPeerStates(Contents(), listed, c);
      if states.Failure? {
        return Failure(NoPeerStates(states.error)), order;
      }
      r := Success(());
      match states.value.CheckClusterDeployable() {
        case NotAllPeersAvailable(_) =>
        case _ =>
          var deployed, _, _, _ := DeployCluster(c, around);
          if deployed.Failure? {
            r := Failure(deployed.error);
          }
      }
    }

    /** Reacts to a peer's change to online. */
    method DeployAllClustersContainingNewlyAvailablePeer(p: PeerId, around: Surroundings)
      returns (r: Result<(), DeployError>)
      requires CanServerPorts.InRange(ports.start, ports.end, ports.counter)
      modifies this`attempts, this`current, this`received, ports
      ensures Contents() == old(Contents())
      ensures CanServerPorts.InRange(ports.start, ports.end, ports.counter)
      ensures p !in peers ==> r == Failure(NoPeerDescriptor)
      ensures (forall c :: !Uses(Contents(), c, p)) ==>
                attempts == old(attempts) && current == old(current) && received == old(received)
      ensures |old(attempts)| <= |attempts| && attempts[..|old(attempts)|] == old(attempts)
      ensures forall i :: |old(attempts)| <= i < |attempts| ==> Uses(Contents(), attempts[i], p)
      ensures forall c :: Exclusive(Contents()) && Uses(Contents(), c, p) ==>
                            attempts == old(attempts) + if AllPeersOnline(Contents(), c) then [c] else []
    {
      if p !in peers {
        return Failure(NoPeerDescriptor);
      }
      var candidates := InSomeOrder(Candidates(Contents(), p));
      CandidatesInOrder(Contents(), p, candidates);
      ghost var t := Contents();
      hide Candidates, AllPeersOnline, Exclusive, IsDeployed, Uses, RollsOut, ListClusterPeerStates;
      for i := 0 to |candidates|
        invariant Contents() == t && CanServerPorts.InRange(ports.start, ports.end, ports.counter)
        invariant i == 0 ==> attempts == old(attempts) && current == old(current) && received == old(received)
        invariant |old(attempts)| <= |attempts| && attempts[..|old(attempts)|] == old(attempts)
        invariant forall k :: |old(attempts)| <= k < |attempts| ==> Uses(t, attempts[k], p)
        invariant i == 1 && Exclusive(t) ==>
                    attempts == old(attempts) + if AllPeersOnline(t, candidates[0]) then [candidates[0]] else []
      {
        var deployed, order := DeployClusterIfAllPeersAvailable(candidates[i], around);
        if Exclusive(t) {
          RollsOutIffAllOnline(t, order, candidates[i]);
        }
        if deployed.Failure? {
          return deployed;
        }
      }
      r := Success(());
    }

    // -------------------------------------------------------------- operations on the tables

    method StoreClusterDeployment(c: ClusterId, around: Surroundings)
      returns (r: Result<(), OperationError>, ghost order: seq<ClusterId>)
      requires CanServerPorts.InRange(ports.start, ports.end, ports.counter)
      modifies this`deployments, this`attempts, this`current, this`received, ports
      ensures CanServerPorts.InRange(ports.start, ports.end, ports.counter)
      ensures IsListing(old(Contents()), order)
      ensures Contents() == Apply(old(Contents()), StoreDeployment(c, order))
      ensures Matches(r, Outcome(old(Contents()), StoreDeployment(c, order)))
      ensures r.Failure? ==> attempts == old(attempts) && current == old(current) && received == old(received)
      ensures old(Exclusive(Contents())) ==>
                && (r.Success? <==> c in configurations && forall p :: !UsedByAnother(old(Contents()), p, c))
                && deployments == if r.Success? then old(deployments) + {c} else old(deployments)
      ensures r.Success? && old(Exclusive(Contents())) ==>
                attempts == old(attempts) + if AllPeersOnline(Contents(), c) then [c] else []
    {
      ghost var t := Contents();
      var listed := ListDeployedClusters();
      order := listed;
      if Exclusive(t) {
        StoreDeploymentAcceptedIff(t, listed, c);
        if c in t.configurations && forall p :: !UsedByAnother(t, p, c) {
          AcceptedStore(t, listed, c);
        }
      }
      var states := ListClusterPeerStates(Contents(), listed, c);
      if states.Failure? {
        return Failure(if states.error.ClusterNotFound? then UnknownCluster else Panic), order;
      }
      match states.value.CheckAllPeersAreAvailableNotNecessarilyOnline() {
        case AllPeersAvailable =>
          deployments := deployments + {c};
        case NotAllPeersAvailable(unavailable) =>
          return Failure(IllegalPeerState(unavailable)), order;
        case AlreadyDeployed =>
      }
      assert Contents() == Apply(t, StoreDeployment(c, order));
      var _, later := DeployClusterIfAllPeersAvailable(c, around);
      if Exclusive(t) {
        StoredDeploymentExclusive(t, c, order);
        StoredIsDeployed(t, c, order);
        RollsOutIffAllOnline(Contents(), later, c);
      }
      r := Success(());
    }

    method DeleteClusterDeployment(c: ClusterId, external: bool) returns (r: Result<(), OperationError>)
      modifies this`deployments
      ensures r.Success? <==> c in old(deployments) && (c in configurations ==> external)
      ensures deployments == if r.Success? then old(deployments) - {c} else old(deployments)
      ensures Contents() == Apply(old(Contents()), DeleteDeployment(c, external))
      ensures Matches(r, Outcome(old(Contents()), DeleteDeployment(c, external)))
    {
      if c !in deployments {
        return Failure(DeploymentNotFound);
      }
      var before := deployments;
      deployments := deployments - {c};
      if c in configurations && !external {
        deployments := before; // rolled back with the transaction
        return Failure(ExternalFailure);
      }
      r := Success(());
    }

    method CreateClusterConfiguration(c: ClusterId, configuration: ClusterConfiguration)
      modifies this`configurations
      ensures configurations == old(configurations)[c := configuration]
      ensures Contents() == Apply(old(Contents()), StoreConfiguration(c, configuration))
    {
      configurations := configurations[c := configuration];
    }

    method DeleteClusterConfiguration(c: ClusterId) returns (r: Result<(), OperationError>)
      modifies this`configurations
      ensures r.Success? <==> c in old(configurations) && c !in deployments
      ensures configurations == if r.Success? then old(configurations) - {c} else old(configurations)
      ensures Contents() == Apply(old(Contents()), DeleteConfiguration(c))
      ensures Matches(r, Outcome(old(Contents()), DeleteConfiguration(c)))
    {
      if c in deployments {
        return Failure(DeploymentFound);
      }
      if c !in configurations {
        return Failure(ConfigurationNotFound);
      }
      configurations := configurations - {c};
      r := Success(());
    }

    /** `creation` is the outcome of creating the peer in the VPN, `undoing` that of deleting it there again. */
    method StorePeerDescriptor(descriptor: PeerDescriptor, creation: External, stored: bool, undoing: External)
      returns (r: Result<(), OperationError>)
      modifies this`peers, this`vpnPeers
      ensures r.Success? <==> stored && (descriptor.id in old(peers) || creation.Done?)
      ensures peers == if r.Success? then old(peers)[descriptor.id := descriptor] else old(peers)
      ensures Contents() == Apply(old(Contents()), StorePeer(descriptor, creation.Done?, stored))
      ensures Matches(r, Outcome(old(Contents()), StorePeer(descriptor, creation.Done?, stored)))
      ensures old(VpnInStep()) ==>
                (VpnInStep() <==>
                 !(&& descriptor.id !in old(peers)
                   && (|| creation.FailedWithEffect?
                       || (creation.Done? && !stored && undoing.FailedWithoutEffect?))))
      ensures forall p :: p != descriptor.id ==> (p in vpnPeers <==> p in old(vpnPeers))
    {
      var isNewPeer := descriptor.id !in peers;
      if isNewPeer {
        if !creation.FailedWithoutEffect? {
          vpnPeers := vpnPeers + {descriptor.id};
        }
        if !creation.Done? {
          return Failure(ExternalFailure);
        }
      }
      if !stored {
        if isNewPeer && !undoing.FailedWithoutEffect? {
          vpnPeers := vpnPeers - {descriptor.id};
        }
        return Failure(PersistenceFailure);
      }
      peers := peers[descriptor.id := descriptor];
      r := Success(());
    }

    /** `oidc` tells whether the peer's OIDC clients are deleted, `vpn` how deleting it in the VPN ends. */
    method DeletePeerDescriptor(p: PeerId, oidc: bool, vpn: External)
      returns (r: Result<(), OperationError>, ghost order: seq<ClusterId>)
      modifies this`peers, this`vpnPeers
      ensures IsListing(old(Contents()), order)
      ensures Contents() == Apply(old(Contents()), DeletePeer(p, order, oidc && vpn.Done?))
      ensures Matches(r, Outcome(old(Contents()), DeletePeer(p, order, oidc && vpn.Done?)))
      ensures old(Exclusive(Contents())) ==>
                (r.Success? <==>
                 p in old(peers) && oidc && vpn.Done? && forall c :: !Uses(old(Contents()), c, p))
      ensures forall c :: old(Exclusive(Contents())) && Uses(old(Contents()), c, p) ==>
                            r == Failure(DeploymentExists(c))
      ensures peers == if r.Success? then old(peers) - {p} else old(peers)
      ensures old(VpnInStep()) && old(Exclusive(Contents())) ==>
                (VpnInStep() <==>
                 !(&& p in old(peers) && (forall c :: !Uses(old(Contents()), c, p))
                   && oidc && vpn.FailedWithEffect?))
      ensures old(VpnInStep()) ==>
                (VpnInStep() <==>
                 !(Outcome(old(Contents()), DeletePeer(p, order, true)).Success? && oidc && vpn.FailedWithEffect?))
    {
      var listed := ListDeployedClusters();
      order := listed;
      if Exclusive(Contents()) {
        PeerDeletionIff(Contents(), p, listed, oidc && vpn.Done?);
        PeerDeletionIff(Contents(), p, listed, true);
      }
      var members := ListPeerMemberStates(Contents(), listed);
      if members.Failure? {
        return Failure(Panic), order;
      }
      if p in members.value && members.value[p].Blocked? {
        return Failure(DeploymentExists(members.value[p].byCluster)), order;
      }
      if p !in peers {
        return Failure(PeerNotFound), order;
      }
      var before := peers;
      peers := peers - {p};
      if oidc && !vpn.FailedWithoutEffect? {
        vpnPeers := vpnPeers - {p};
      }
      if !oidc || !vpn.Done? {
        peers := before; // rolled back with the transaction
        return Failure(ExternalFailure), order;
      }
      r := Success(());
    }
  }

  lemma MergeOneMore(m: map<PeerId, MemberConfiguration>, n: map<PeerId, MemberConfiguration>, p: PeerId,
                     configuration: MemberConfiguration)
    ensures (m + n)[p := configuration] == m + n[p := configuration]
  {
  }

  /** An operation reports success or the error of the step it performs. */
  predicate Matches(r: Result<(), OperationError>, outcome: Result<Tables, OperationError>) {
    && (r.Success? <==> outcome.Success?)
    && (r.Failure? && outcome.Failure? ==> r.error == outcome.error)
  }

  // ---------------------------------------------------------------- lemmas for the operations

  lemma MappedAreMembers(mapping: MemberMapping.Mapping, listed: seq<PeerDescriptor>,
                         configuration: ClusterConfiguration)
    requires MemberMapping.IsMapping(mapping, listed, configuration.devices, configuration.leader)
    ensures mapping.Keys == MembersOf(listed, configuration)
  {
  }

  /** The member at which assigning fails. */
  function FailedAt(order: seq<PeerId>, stored: set<PeerId>, unreachable: set<PeerId>): Option<PeerId> {
    var n := CountReached(order, stored, unreachable);
    if n < |order| then Some(order[n]) else None
  }

  /** The first `n` members could be assigned, and exactly they have been sent their configurations. */
  ghost predicate AssignedFirst(sent: map<PeerId, MemberConfiguration>, mapping: MemberMapping.Mapping,
                                a: ClusterStar.ClusterAssignment, order: seq<PeerId>, n: nat,
                                stored: set<PeerId>, unreachable: set<PeerId>) {
    && n <= |order|
    && (forall i :: 0 <= i < n ==> IsAvailable(order[i], stored, unreachable))
    && SentFirst(sent.Keys, order, n)
    && forall p :: p in sent ==> p in mapping && sent[p] == MemberConfiguration(a, mapping[p])
  }

  lemma NothingAssigned(mapping: MemberMapping.Mapping, a: ClusterStar.ClusterAssignment, order: seq<PeerId>,
                        stored: set<PeerId>, unreachable: set<PeerId>)
    ensures AssignedFirst(map[], mapping, a, order, 0, stored, unreachable)
  {
  }

  lemma OneMoreAssigned(sent: map<PeerId, MemberConfiguration>, mapping: MemberMapping.Mapping,
                        a: ClusterStar.ClusterAssignment, order: seq<PeerId>, n: nat,
                        stored: set<PeerId>, unreachable: set<PeerId>)
    requires AssignedFirst(sent, mapping, a, order, n, stored, unreachable)
    requires n < |order| && IsAvailable(order[n], stored, unreachable) && order[n] in mapping
    ensures AssignedFirst(sent[order[n] := MemberConfiguration(a, mapping[order[n]])], mapping, a, order, n + 1,
                          stored, unreachable)
  {
    assert order[..n + 1] == order[..n] + [order[n]];
  }

  lemma AssigningEnds(sent: map<PeerId, MemberConfiguration>, mapping: MemberMapping.Mapping,
                      a: ClusterStar.ClusterAssignment, order: seq<PeerId>, n: nat,
                      stored: set<PeerId>, unreachable: set<PeerId>)
    requires AssignedFirst(sent, mapping, a, order, n, stored, unreachable)
    requires n < |order| ==> !IsAvailable(order[n], stored, unreachable)
    ensures FailedAt(order, stored, unreachable) == if n < |order| then Some(order[n]) else None
    ensures SentInOrder(sent.Keys, order, stored, unreachable)
    ensures forall p :: p in sent ==> p in mapping && sent[p] == MemberConfiguration(a, mapping[p])
  {
    hide CountReached, SentFirst;
    assert CountReached(order, stored, unreachable) == n;
  }

  /** What the outcome of the assigning transaction says. */
  lemma AssigningMeaning(t: Tables, listed: seq<PeerDescriptor>, configuration: ClusterConfiguration,
                         around: Surroundings,
                         failed: Option<PeerId>, order: seq<PeerId>)
    requires MembersOnline(t, listed, configuration) && IsOrderOf(order, MembersOf(listed, configuration))
    requires failed == FailedAt(order, t.peers.Keys, around.unreachable)
    ensures failed.None? ==> MembersReady(t, listed, configuration, around.unreachable)
    ensures failed.Some? ==>
              forall granted :: Explained(AssignmentFailed(failed.value), t, listed, configuration, around, granted)
  {
    hide CountReached, MembersOf;
    if failed.None? {
      forall p | p in MembersOf(listed, configuration)
        ensures IsAvailable(p, t.peers.Keys, around.unreachable)
      {
        var i :| 0 <= i < |order| && order[i] == p;
      }
    }
  }

  lemma SentToMembers(sent: map<PeerId, MemberConfiguration>, mapping: MemberMapping.Mapping,
                      a: ClusterStar.ClusterAssignment, listed: seq<PeerDescriptor>,
                        configuration: ClusterConfiguration,
                      order: seq<PeerId>, stored: set<PeerId>, unreachable: set<PeerId>)
    requires MemberMapping.IsMapping(mapping, listed, configuration.devices, configuration.leader)
    requires IsOrderOf(order, mapping.Keys) && FailedAt(order, stored, unreachable).None?
    requires SentInOrder(sent.Keys, order, stored, unreachable)
    requires forall p :: p in sent ==> p in mapping && sent[p] == MemberConfiguration(a, mapping[p])
    ensures IsRollout(sent, a, listed, configuration)
  {
    AllSent(sent.Keys, mapping.Keys, order, stored, unreachable);
    if MemberMapping.WellFormed(listed) {
      InterfacesSent(sent, mapping, a, listed, configuration);
    }
    hide CarriesInterfaces;
    hide SentInOrder, FailedAt, IsOrderOf;
    MappedAreMembers(mapping, listed, configuration);
    hide MembersOf, MemberMapping.WellFormed;
  }

  lemma InterfacesSent(sent: map<PeerId, MemberConfiguration>, mapping: MemberMapping.Mapping,
                       a: ClusterStar.ClusterAssignment, listed: seq<PeerDescriptor>,
                       configuration: ClusterConfiguration)
    requires MemberMapping.WellFormed(listed)
    requires MemberMapping.IsMapping(mapping, listed, configuration.devices, configuration.leader)
    requires forall p :: p in sent ==> p in mapping && sent[p] == MemberConfiguration(a, mapping[p])
    ensures CarriesInterfaces(sent, listed, configuration)
  {
    MemberMapping.InterfacesOfMembers(mapping, listed, configuration.devices, configuration.leader);
    hide MemberMapping.WellFormed, MemberMapping.HasInterfaces, MemberMapping.ClusterInterfaces,
      MemberMapping.IsMapping;
  }

  lemma AllSent(sent: set<PeerId>, members: set<PeerId>, order: seq<PeerId>, stored: set<PeerId>,
                unreachable: set<PeerId>)
    requires IsOrderOf(order, members) && FailedAt(order, stored, unreachable).None?
    requires SentInOrder(sent, order, stored, unreachable)
    ensures sent == members
  {
    hide CountReached;
    assert order[..|order|] == order;
  }

  /** Some order of a set. */
  lemma SomeOrder(elements: set<PeerId>) returns (order: seq<PeerId>)
    ensures IsOrderOf(order, elements)
  {
    if elements == {} {
      order := [];
    } else {
      var x :| x in elements;
      var rest := SomeOrder(elements - {x});
      order := [x] + rest;
    }
  }

  /** In some order of the members, assigning fails although a member has been sent its assignment already. */
  ghost predicate MayLeaveAssignments(members: set<PeerId>, stored: set<PeerId>, unreachable: set<PeerId>) {
    exists order :: IsOrderOf(order, members) && 0 < CountReached(order, stored, unreachable) < |order|
  }

  /** That is so exactly if one member can be assigned and another one cannot. */
  lemma LeavesAssignmentsIff(members: set<PeerId>, stored: set<PeerId>, unreachable: set<PeerId>)
    ensures MayLeaveAssignments(members, stored, unreachable) <==>
            && (exists p :: p in members && IsAvailable(p, stored, unreachable))
            && (exists q :: q in members && !IsAvailable(q, stored, unreachable))
  {
    if MayLeaveAssignments(members, stored, unreachable) {
      var order :| IsOrderOf(order, members) && 0 < CountReached(order, stored, unreachable) < |order|;
      assert order[0] in members && order[CountReached(order, stored, unreachable)] in members;
    } else if p, q :| && p in members && IsAvailable(p, stored, unreachable)
                      && q in members && !IsAvailable(q, stored, unreachable) {
      var rest := SomeOrder(members - {p});
      AvailableFirst(members, stored, unreachable, p, q, rest);
    }
  }

  lemma AvailableFirst(members: set<PeerId>, stored: set<PeerId>, unreachable: set<PeerId>, p: PeerId, q: PeerId,
                       rest: seq<PeerId>)
    requires p in members && IsAvailable(p, stored, unreachable)
    requires q in members && !IsAvailable(q, stored, unreachable)
    requires IsOrderOf(rest, members - {p})
    ensures MayLeaveAssignments(members, stored, unreachable)
  {
    var order := [p] + rest;
    assert q in rest;
    var i :| 0 <= i < |rest| && rest[i] == q;
    assert order[i + 1] == q && order[1..] == rest;
    assert IsOrderOf(order, members);
    assert CountReached(order, stored, unreachable) >= 1;
  }

  const LEADER := PeerDescriptor(1, [], [])
  const MEMBER := PeerDescriptor(2, [DeviceDescriptor(20, 0)], [NetworkInterface(0, "eth0")])
  const PAIR := ClusterConfiguration(1, {20})

  lemma PairHasTwoMembers()
    ensures MemberMapping.Contribution([LEADER, MEMBER], 20).Success?
    ensures MembersOf([LEADER, MEMBER], PAIR) == {1, 2}
  {
    var listed := [LEADER, MEMBER];
    assert listed[1..] == [MEMBER];
    assert MEMBER.devices[0].id == 20 && MemberMapping.Owns(MEMBER, 20);
    assert MemberMapping.OwnerOf([MEMBER], 20) == Some(MEMBER) == MemberMapping.OwnerOf(listed, 20);
    OneDeviceOneInterface(MEMBER);
    assert MemberMapping.Contribution(listed, 20).Success? && MemberMapping.Contribution(listed, 20).value.0 == 2;
  }

  lemma SecondFails()
    ensures IsOrderOf<PeerId>([1, 2], {1, 2}) && FailedAt([1, 2], {1, 2}, {2}) == Some(2)
    ensures SentInOrder({1}, [1, 2], {1, 2}, {2}) && MayLeaveAssignments({1, 2}, {1, 2}, {2})
  {
    var order: seq<PeerId> := [1, 2];
    assert order[..1] == [1] && order[1..] == [2];
    assert CountReached([2], {1, 2}, {2}) == 0 && CountReached(order, {1, 2}, {2}) == 1;
    assert IsOrderOf(order, {1, 2});
  }

  /**
   A leader and a peer with the cluster's device, both stored and recorded Online, of which the second cannot be
   reached: assigned in this order, the leader keeps an assignment that is not stored.
   */
  lemma AssignmentOutlivesRollback(host: Address)
    ensures var t := Tables(map[5 := PAIR], {5}, map[1 := LEADER, 2 := MEMBER],
                            map[1 := Online(host), 2 := Online(host)]);
            && IsPeerListing([LEADER, MEMBER], t.peers) && MembersOnline(t, [LEADER, MEMBER], PAIR)
            && IsOrderOf<PeerId>([1, 2], MembersOf([LEADER, MEMBER], PAIR))
            && FailedAt([1, 2], t.peers.Keys, {2}) == Some(2) && SentInOrder({1}, [1, 2], t.peers.Keys, {2})
            && MayLeaveAssignments(MembersOf([LEADER, MEMBER], PAIR), t.peers.Keys, {2})
  {
    PairHasTwoMembers();
    SecondFails();
    hide MembersOf, IsOrderOf, FailedAt, SentInOrder, MayLeaveAssignments, CountReached, MemberMapping.Contribution;
    var stored := map[1 := LEADER, 2 := MEMBER];
    assert stored.Keys == {1, 2};
    assert stored[1] == LEADER && stored[2] == MEMBER;
  }

  lemma OneDeviceOneInterface(peer: PeerDescriptor)
    requires |peer.devices| == 1 && |peer.interfaces| == 1 && peer.interfaces[0].id == peer.devices[0].interface
    ensures MemberMapping.InterfacesOfDevice(peer.devices, peer.interfaces, peer.devices[0].id).Some?
  {
    assert peer.devices[..0] == [];
  }

  /**
   With opens and teardowns as whole steps, a member that is recorded Online is in the map of connected peers, so that
   it cannot be unreachable for want of an entry.
   */
  lemma OnlineMembersHaveEntries(steps: seq<PeerBroker.Step>, t: Tables, listed: seq<PeerDescriptor>,
                                 configuration: ClusterConfiguration)
    requires PeerBroker.After(PeerBroker.INITIAL, steps).Some?
    requires PeerBroker.After(PeerBroker.INITIAL, steps).value.connections == t.connections
    requires MembersOnline(t, listed, configuration)
    ensures MembersOf(listed, configuration) <= PeerBroker.After(PeerBroker.INITIAL, steps).value.entries.Keys
  {
    forall p | p in MembersOf(listed, configuration)
      ensures p in PeerBroker.After(PeerBroker.INITIAL, steps).value.entries
    {
      PeerBroker.KeysAreOnlinePeersInEveryRun(steps, p);
      assert IsMemberOf(listed, configuration, p);
    }
  }

  /** If all members are online, their addresses and freshly allocated ports make up an assignment. */
  lemma AssembledAssignment(t: Tables, listed: seq<PeerDescriptor>, configuration: ClusterConfiguration,
                            mapping: MemberMapping.Mapping, members: seq<PeerId>, start: nat, end: nat, counter: nat)
    requires CanServerPorts.InRange(start, end, counter)
    requires CanServerPorts.Allocate(start, end, counter, |members|).ports.Success?
    requires MemberMapping.IsMapping(mapping, listed, configuration.devices, configuration.leader)
    requires ClusterStar.Distinct(members) && forall p :: p in members <==> p in mapping
    requires var ports := CanServerPorts.Allocate(start, end, counter, |members|).ports.value;
             ClusterStar.MemberAssignments(members, ports, t.connections).Success?
    ensures var ports := CanServerPorts.Allocate(start, end, counter, |members|).ports.value;
            var r := ClusterStar.MemberAssignments(members, ports, t.connections);
            && IsAssignment(ClusterStar.ClusterAssignment(configuration.leader, r.value), t, listed, configuration,
                            start, end)
            && |r.value| == |ports| && forall i :: 0 <= i < |ports| ==> r.value[i].canServerPort == ports[i]
  {
    MappedAreMembers(mapping, listed, configuration);
    assert IsMemberOf(listed, configuration, configuration.leader);
    hide MemberMapping.IsMapping, MembersOf, IsAssignment;
    var ports := CanServerPorts.Allocate(start, end, counter, |members|).ports.value;
    CanServerPorts.AllocatedPorts(start, end, counter, |members|);
    EntriesOnline(t, members, ports, start, end);
    ClusterStar.DeployedAssignmentWellFormed(start, end, counter, members, configuration.leader, t.connections);
    hide *;
    var entries := ClusterStar.MemberAssignments(members, ports, t.connections).value;
    CompleteAssignment(t, listed, configuration, entries, start, end);
  }

  /** Assembling succeeds exactly if all members are online. */
  lemma AssemblesIff(t: Tables, mapping: MemberMapping.Mapping, members: seq<PeerId>, ports: seq<CanServerPorts.Port>)
    requires |members| == |ports| && forall p :: p in members <==> p in mapping
    ensures ClusterStar.MemberAssignments(members, ports, t.connections).Success? <==>
              forall p :: p in mapping ==> IsOnline(t, p)
    ensures var r := ClusterStar.MemberAssignments(members, ports, t.connections);
            r.Failure? ==> r.error in mapping && !IsOnline(t, r.error)
  {
    OnlineMembers(t, members, ports);
    hide ClusterStar.MemberAssignments, IsOnline;
  }

  lemma CompleteAssignment(t: Tables, listed: seq<PeerDescriptor>, configuration: ClusterConfiguration,
                           assignments: seq<ClusterStar.PeerClusterAssignment>, start: nat, end: nat)
    requires var a := ClusterStar.ClusterAssignment(configuration.leader, assignments);
             && ClusterStar.WellFormed(a) && ClusterStar.DistinctPorts(a)
             && forall p :: ClusterStar.IsMember(a, p) <==> IsMemberOf(listed, configuration, p)
    requires EntriesAreOnline(t, assignments, start, end)
    ensures IsAssignment(ClusterStar.ClusterAssignment(configuration.leader, assignments), t, listed, configuration,
                         start, end)
  {
  }

  lemma EntriesOnline(t: Tables, members: seq<PeerId>, ports: seq<CanServerPorts.Port>, start: nat, end: nat)
    requires |members| == |ports| && forall i :: 0 <= i < |ports| ==> start <= ports[i] < end
    requires ClusterStar.MemberAssignments(members, ports, t.connections).Success?
    ensures forall i :: 0 <= i < |members| ==> members[i] in t.connections && t.connections[members[i]].Online?
    ensures var entries := ClusterStar.MemberAssignments(members, ports, t.connections).value;
            && EntriesAreOnline(t, entries, start, end)
            && |entries| == |ports| && forall i :: 0 <= i < |ports| ==> entries[i].canServerPort == ports[i]
  {
    OnlineMembers(t, members, ports);
    hide ClusterStar.MemberAssignments;
  }

  lemma OnlineMembers(t: Tables, members: seq<PeerId>, ports: seq<CanServerPorts.Port>)
    requires |members| == |ports|
    ensures var r := ClusterStar.MemberAssignments(members, ports, t.connections);
            && (r.Success? <==> forall i :: 0 <= i < |members| ==> IsOnline(t, members[i]))
            && (r.Failure? ==> r.error in members && !IsOnline(t, r.error))
            && (r.Success? ==>
                  && |r.value| == |members|
                  && forall i :: 0 <= i < |members| ==>
                                   && IsOnline(t, members[i]) && r.value[i].peerId == members[i]
                                   && r.value[i].canServerPort == ports[i]
                                   && r.value[i].vpnAddress == t.connections[members[i]].remoteHost)
  {
    ClusterStar.MemberAssignmentsMeaning(members, ports, t.connections);
    hide ClusterStar.MemberAssignments;
  }

  /** Under exclusivity the clusters that contain a peer are at most one. */
  lemma CandidatesInOrder(t: Tables, p: PeerId, candidates: seq<ClusterId>)
    requires p in t.peers
    requires |candidates| == |Candidates(t, p)| && forall c :: c in candidates <==> c in Candidates(t, p)
    ensures forall i :: 0 <= i < |candidates| ==> Uses(t, candidates[i], p) && IsDeployed(t, candidates[i])
    ensures (forall c :: !Uses(t, c, p)) ==> candidates == []
    ensures Exclusive(t) ==> |candidates| <= 1 && forall c: ClusterId :: Uses(t, c, p) ==> candidates == [c]
  {
    assert forall c :: c in candidates <==> Uses(t, c, p);
    hide Candidates;
    forall i | 0 <= i < |candidates|
      ensures Uses(t, candidates[i], p)
    {
      assert candidates[i] in candidates;
    }
    if candidates != [] {
      assert Uses(t, candidates[0], p);
      var c := candidates[0];
      if Exclusive(t) {
        forall other: ClusterId | Uses(t, other, p)
          ensures other == c
        {
        }
        assert Candidates(t, p) == {c};
        assert |candidates| == 1 && candidates == [c];
      }
    }
  }
}
