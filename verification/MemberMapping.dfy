/** Which peers take part in a cluster, and with which network interfaces. */
module MemberMapping {
  import opened Peers
  import opened Topology
  import opened Wrappers

  /** The second case is the panic for a device whose interface its peer does not describe. */
  datatype MappingError = PeerForDeviceNotFound(device: DeviceId) | InterfaceNotDescribed(device: DeviceId)

  type Mapping = map<PeerId, seq<NetworkInterface>>

  // ---------------------------------------------------------------- specification

  predicate Owns(peer: PeerDescriptor, device: DeviceId) {
    exists i :: 0 <= i < |peer.devices| && peer.devices[i].id == device
  }

  /** The first peer that lists the device. */
  function OwnerOf(peers: seq<PeerDescriptor>, device: DeviceId): (r: Option<PeerDescriptor>)
    ensures r.Some? ==> r.value in peers && Owns(r.value, device)
    ensures r.None? <==> forall peer :: peer in peers ==> !Owns(peer, device)
  {
    if peers == [] then None
    else if Owns(peers[0], device) then Some(peers[0])
    else OwnerOf(peers[1..], device)
  }

  function InterfaceWithId(interfaces: seq<NetworkInterface>, id: InterfaceId): Option<NetworkInterface> {
    if interfaces == [] then None
    else if interfaces[0].id == id then Some(interfaces[0])
    else InterfaceWithId(interfaces[1..], id)
  }

  /** The interfaces of those of the given devices that have the wanted id, if all of them are described. */
  function InterfacesOfDevice(devices: seq<DeviceDescriptor>, interfaces: seq<NetworkInterface>, device: DeviceId)
    : Option<seq<NetworkInterface>>
  {
    if devices == [] then Some([])
    else
      var front := InterfacesOfDevice(devices[..|devices| - 1], interfaces, device);
      var last := devices[|devices| - 1];
      if last.id != device || front.None? then front
      else
        match InterfaceWithId(interfaces, last.interface)
        case None => None
        case Some(interface) => Some(front.value + [interface])
  }

  function Contribution(peers: seq<PeerDescriptor>, device: DeviceId)
    : Result<(PeerId, seq<NetworkInterface>), MappingError>
  {
    match OwnerOf(peers, device)
    case None => Failure(PeerForDeviceNotFound(device))
    case Some(peer) =>
      match InterfacesOfDevice(peer.devices, peer.interfaces, device)
      case None => Failure(InterfaceNotDescribed(device))
      case Some(interfaces) => Success((peer.id, interfaces))
  }

  /** Interfaces that the given devices bring to a peer, counted. */
  ghost function Gathered(peers: seq<PeerDescriptor>, devices: set<DeviceId>, peer: PeerId)
    : multiset<NetworkInterface>
  {
    if devices == {} then multiset{}
    else
      var device :| device in devices;
      Gathered(peers, devices - {device}, peer) + Share(peers, device, peer)
  }

  function Share(peers: seq<PeerDescriptor>, device: DeviceId, peer: PeerId): multiset<NetworkInterface> {
    match Contribution(peers, device)
    case Success((owner, interfaces)) => if owner == peer then multiset(interfaces) else multiset{}
    case Failure(_) => multiset{}
  }

  ghost predicate IsMapping(m: Mapping, peers: seq<PeerDescriptor>, devices: set<DeviceId>, leader: PeerId) {
    && (forall peer :: peer in m <==>
                       || peer == leader
                       || exists device :: device in devices && Contribution(peers, device).Success?
                                           && Contribution(peers, device).value.0 == peer)
    && (forall peer :: peer in m ==> multiset(m[peer]) == Gathered(peers, devices, peer))
  }

  // ---------------------------------------------------------------- the algorithm

  method DetermineMemberInterfaceMapping(clusterDevices: set<DeviceId>, allPeers: seq<PeerDescriptor>, leader: PeerId)
    returns (r: Result<Mapping, MappingError>)
    ensures r.Success? <==> forall device :: device in clusterDevices ==> Contribution(allPeers, device).Success?
    ensures r.Success? ==> IsMapping(r.value, allPeers, clusterDevices, leader)
    ensures r.Failure? ==>
              r.error.device in clusterDevices && Contribution(allPeers, r.error.device) == Failure(r.error)
  {
    hide IsMapping, InterfacesOfDevice;
    var result: Mapping := map[leader := []];
    var rest := clusterDevices;
    assert clusterDevices - rest == {};
    MappingOfNothing(allPeers, leader);
    while rest != {}
      invariant rest <= clusterDevices
      invariant forall device :: device in clusterDevices - rest ==> Contribution(allPeers, device).Success?
      invariant IsMapping(result, allPeers, clusterDevices - rest, leader)
      decreases rest
    {
      var device :| device in rest;
      ghost var done := clusterDevices - rest;
      match OwnerOf(allPeers, device) {
        case None =>
          return Failure(PeerForDeviceNotFound(device));
        case Some(peer) =>
          match InterfacesOfDevice(peer.devices, peer.interfaces, device) {
            case None =>
              return Failure(InterfaceNotDescribed(device));
            case Some(interfaces) =>
              ghost var before := result;
              var present := if peer.id in result then result[peer.id] else [];
              result := result[peer.id := present + interfaces];
              MappingExtended(before, allPeers, done, leader, device, peer.id, interfaces);
          }
      }
      rest := rest - {device};
      assert clusterDevices - rest == done + {device};
    }
    assert clusterDevices - rest == clusterDevices;
    r := Success(result);
  }

  lemma {:induction false} GatheredMore(peers: seq<PeerDescriptor>, devices: set<DeviceId>, device: DeviceId,
                                        peer: PeerId)
    requires device in devices
    ensures Gathered(peers, devices, peer) == Gathered(peers, devices - {device}, peer) + Share(peers, device, peer)
    decreases devices
  {
    var first :| first in devices
                 && Gathered(peers, devices, peer)
                      == Gathered(peers, devices - {first}, peer) + Share(peers, first, peer);
    if first != device {
      hide Gathered, Share;
      GatheredMore(peers, devices - {first}, device, peer);
      GatheredMore(peers, devices - {device}, first, peer);
      assert devices - {first} - {device} == devices - {device} - {first};
    }
  }

  lemma {:induction false} GatheredFromOthers(peers: seq<PeerDescriptor>, devices: set<DeviceId>, peer: PeerId)
    requires forall device :: device in devices && Contribution(peers, device).Success? ==>
                                Contribution(peers, device).value.0 != peer
    ensures Gathered(peers, devices, peer) == multiset{}
    decreases devices
  {
    if devices != {} {
      var device :| device in devices;
      GatheredMore(peers, devices, device, peer);
      GatheredFromOthers(peers, devices - {device}, peer);
    }
  }

  lemma MappingOfNothing(peers: seq<PeerDescriptor>, leader: PeerId)
    ensures IsMapping(map[leader := []], peers, {}, leader)
  {
  }

  lemma MappingExtended(m: Mapping, peers: seq<PeerDescriptor>, devices: set<DeviceId>, leader: PeerId,
                        device: DeviceId,
                        owner: PeerId, interfaces: seq<NetworkInterface>)
    requires IsMapping(m, peers, devices, leader) && device !in devices
    requires Contribution(peers, device) == Success((owner, interfaces))
    ensures IsMapping(m[owner := (if owner in m then m[owner] else []) + interfaces], peers, devices + {device}, leader)
  {
    hide Contribution, Gathered;
    var m' := m[owner := (if owner in m then m[owner] else []) + interfaces];
    assert devices + {device} - {device} == devices;
    forall peer | peer in m'
      ensures multiset(m'[peer]) == Gathered(peers, devices + {device}, peer)
    {
      GatheredMore(peers, devices + {device}, device, peer);
      if peer !in m {
        GatheredFromOthers(peers, devices, peer);
      }
    }
    forall peer
      ensures peer in m' <==> || peer == leader
                              || exists d :: d in devices + {device} && Contribution(peers, d).Success?
                                             && Contribution(peers, d).value.0 == peer
    {
      if peer == owner {
        assert device in devices + {device};
      } else if peer in m && peer != leader {
        var d :| d in devices && Contribution(peers, d).Success? && Contribution(peers, d).value.0 == peer;
        assert d in devices + {device};
      }
    }
  }

  // ---------------------------------------------------------------- well-formed peers

  /**
   No device id occurs twice, within a peer or across peers, peers have distinct ids, and every interface is described.
   */
  ghost predicate WellFormed(peers: seq<PeerDescriptor>) {
    && (forall p, q :: p in peers && q in peers && p.id == q.id ==> p == q)
    && (forall p, q, d :: p in peers && q in peers && Owns(p, d) && Owns(q, d) ==> p == q)
    && (forall p, i, j :: p in peers && 0 <= i < j < |p.devices| ==> p.devices[i].id != p.devices[j].id)
    && (forall p, i :: p in peers && 0 <= i < |p.devices| ==>
         InterfaceWithId(p.interfaces, p.devices[i].interface).Some?)
  }

  lemma {:induction false} OneInterfacePerDevice(devices: seq<DeviceDescriptor>, interfaces: seq<NetworkInterface>,
                                                 device: DeviceId)
    requires forall i, j :: 0 <= i < j < |devices| ==> devices[i].id != devices[j].id
    requires forall i :: 0 <= i < |devices| ==> InterfaceWithId(interfaces, devices[i].interface).Some?
    ensures InterfacesOfDevice(devices, interfaces, device).Some?
    ensures forall i :: 0 <= i < |devices| && devices[i].id == device ==>
                          InterfacesOfDevice(devices, interfaces, device).value
                          == [InterfaceWithId(interfaces, devices[i].interface).value]
    ensures (forall i :: 0 <= i < |devices| ==> devices[i].id != device) ==>
              InterfacesOfDevice(devices, interfaces, device).value == []
  {
    if devices != [] {
      var n := |devices| - 1;
      OneInterfacePerDevice(devices[..n], interfaces, device);
      assert forall i :: 0 <= i < n ==> devices[..n][i] == devices[i];
    }
  }

  /** Each device of a well-formed peer contributes its one interface to that peer. */
  lemma ContributionOfOwner(peers: seq<PeerDescriptor>, peer: PeerDescriptor, i: nat)
    requires WellFormed(peers) && peer in peers && i < |peer.devices|
    ensures Contribution(peers, peer.devices[i].id)
            == Success((peer.id, [InterfaceWithId(peer.interfaces, peer.devices[i].interface).value]))
  {
    assert Owns(peer, peer.devices[i].id);
    OneInterfacePerDevice(peer.devices, peer.interfaces, peer.devices[i].id);
  }

  /** For well-formed peers the mapping fails exactly for a device without peer, and always with that error. */
  lemma ContributionIff(peers: seq<PeerDescriptor>, device: DeviceId)
    requires WellFormed(peers)
    ensures Contribution(peers, device).Success? <==> exists peer :: peer in peers && Owns(peer, device)
    ensures Contribution(peers, device).Failure? ==> Contribution(peers, device).error == PeerForDeviceNotFound(device)
    ensures Contribution(peers, device).Success? ==> |Contribution(peers, device).value.1| == 1
    ensures Contribution(peers, device).Success? ==>
              exists peer :: peer in peers && Owns(peer, device) && Contribution(peers, device).value.0 == peer.id
  {
    if peer :| peer in peers && Owns(peer, device) {
      var i :| 0 <= i < |peer.devices| && peer.devices[i].id == device;
      ContributionOfOwner(peers, peer, i);
    }
  }

  /** The members are the leader and every peer that owns a device of the cluster. */
  lemma MembersAreClusterPeers(m: Mapping, peers: seq<PeerDescriptor>, devices: set<DeviceId>, leader: PeerId)
    requires WellFormed(peers) && IsMapping(m, peers, devices, leader)
    ensures forall id :: id in m <==>
              id == leader || exists peer :: peer in peers && peer.id == id && Meets(peer, devices)
  {
    forall id
      ensures id in m <==> id == leader || exists peer :: peer in peers && peer.id == id && Meets(peer, devices)
    {
      if peer :| peer in peers && peer.id == id && Meets(peer, devices) {
        var i :| 0 <= i < |peer.devices| && peer.devices[i].id in devices;
        ContributionOfOwner(peers, peer, i);
      } else if id in m && id != leader {
        var device :| && device in devices
                      && Contribution(peers, device).Success? && Contribution(peers, device).value.0 == id;
        ContributionIff(peers, device);
      }
    }
  }

  ghost function TotalOver(peers: seq<PeerDescriptor>, devices: set<DeviceId>, members: set<PeerId>): nat {
    if members == {} then 0
    else
      var member :| member in members;
      |Gathered(peers, devices, member)| + TotalOver(peers, devices, members - {member})
  }

  lemma {:induction false} TotalWithout(peers: seq<PeerDescriptor>, devices: set<DeviceId>, members: set<PeerId>,
                                        member: PeerId)
    requires member in members
    ensures TotalOver(peers, devices, members)
            == |Gathered(peers, devices, member)| + TotalOver(peers, devices, members - {member})
    decreases members
  {
    var first :| first in members && TotalOver(peers, devices, members)
                                     == |Gathered(peers, devices, first)|
                                          + TotalOver(peers, devices, members - {first});
    if first != member {
      hide TotalOver, Gathered;
      TotalWithout(peers, devices, members - {first}, member);
      TotalWithout(peers, devices, members - {member}, first);
      assert members - {first} - {member} == members - {member} - {first};
    }
  }

  lemma {:induction false} TotalMonotone(peers: seq<PeerDescriptor>, devices: set<DeviceId>, device: DeviceId,
                                         members: set<PeerId>)
    requires WellFormed(peers) && device in devices && Contribution(peers, device).Success?
    ensures TotalOver(peers, devices, members)
            == TotalOver(peers, devices - {device}, members)
               + if Contribution(peers, device).value.0 in members then 1 else 0
    decreases members
  {
    if members != {} {
      hide Gathered, WellFormed;
      var member :| member in members;
      TotalWithout(peers, devices, members, member);
      TotalWithout(peers, devices - {device}, members, member);
      TotalMonotone(peers, devices, device, members - {member});
      GatheredMore(peers, devices, device, member);
      ContributionIff(peers, device);
    }
  }

  /** As many interfaces are mapped as the cluster has devices. */
  lemma {:induction false} OneInterfacePerClusterDevice(peers: seq<PeerDescriptor>, devices: set<DeviceId>,
                                                        members: set<PeerId>)
    requires WellFormed(peers)
    requires forall device :: device in devices ==>
                                Contribution(peers, device).Success? && Contribution(peers, device).value.0 in members
    ensures TotalOver(peers, devices, members) == |devices|
    decreases devices
  {
    if devices == {} {
      NothingGathered(peers, members);
    } else {
      var device :| device in devices;
      TotalMonotone(peers, devices, device, members);
      OneInterfacePerClusterDevice(peers, devices - {device}, members);
    }
  }

  lemma {:induction false} NothingGathered(peers: seq<PeerDescriptor>, members: set<PeerId>)
    ensures TotalOver(peers, {}, members) == 0
    decreases members
  {
    if members != {} {
      var member :| member in members;
      TotalWithout(peers, {}, members, member);
      NothingGathered(peers, members - {member});
    }
  }

  /** The number of interfaces a mapping holds for the given members. */
  ghost function MappedInterfaces(m: Mapping, members: set<PeerId>): nat
    requires members <= m.Keys
  {
    if members == {} then 0
    else
      var member :| member in members;
      |m[member]| + MappedInterfaces(m, members - {member})
  }

  lemma {:induction false} MappedAreGathered(m: Mapping, peers: seq<PeerDescriptor>, devices: set<DeviceId>,
                                             leader: PeerId,
                                             members: set<PeerId>)
    requires IsMapping(m, peers, devices, leader) && members <= m.Keys
    ensures MappedInterfaces(m, members) == TotalOver(peers, devices, members)
    decreases members
  {
    if members != {} {
      var member :| member in members
                    && MappedInterfaces(m, members) == |m[member]| + MappedInterfaces(m, members - {member});
      hide MappedInterfaces;
      TotalWithout(peers, devices, members, member);
      MappedAreGathered(m, peers, devices, leader, members - {member});
      assert |m[member]| == |multiset(m[member])|;
    }
  }

  // ---------------------------------------------------------------- independence of all orders

  /** Two listings of the same peers. */
  ghost predicate SamePeers(peers: seq<PeerDescriptor>, peers': seq<PeerDescriptor>) {
    forall peer :: peer in peers <==> peer in peers'
  }

  lemma SameContribution(peers: seq<PeerDescriptor>, peers': seq<PeerDescriptor>, device: DeviceId)
    requires WellFormed(peers) && SamePeers(peers, peers')
    ensures Contribution(peers, device) == Contribution(peers', device)
  {
    var owner, owner' := OwnerOf(peers, device), OwnerOf(peers', device);
    if owner.Some? {
      assert owner.value in peers' && owner'.Some?;
      assert owner'.value in peers && owner == owner';
    }
  }

  lemma {:induction false} SameGathered(peers: seq<PeerDescriptor>, peers': seq<PeerDescriptor>, devices: set<DeviceId>,
                                        peer: PeerId)
    requires WellFormed(peers) && SamePeers(peers, peers')
    ensures Gathered(peers, devices, peer) == Gathered(peers', devices, peer)
    decreases devices
  {
    if devices != {} {
      hide Gathered, WellFormed;
      var device :| device in devices;
      GatheredMore(peers, devices, device, peer);
      GatheredMore(peers', devices, device, peer);
      SameContribution(peers, peers', device);
      SameGathered(peers, peers', devices - {device}, peer);
    } else {
      assert Gathered(peers, devices, peer) == multiset{} == Gathered(peers', devices, peer);
    }
  }

  lemma SameMapping(m: Mapping, peers: seq<PeerDescriptor>, peers': seq<PeerDescriptor>, devices: set<DeviceId>,
                    leader: PeerId)
    requires WellFormed(peers) && SamePeers(peers, peers') && IsMapping(m, peers', devices, leader)
    ensures IsMapping(m, peers, devices, leader)
  {
    forall device
      ensures Contribution(peers, device) == Contribution(peers', device)
    {
      SameContribution(peers, peers', device);
    }
    hide Contribution, Gathered, WellFormed, SamePeers;
    forall peer
      ensures Gathered(peers, devices, peer) == Gathered(peers', devices, peer)
    {
      SameGathered(peers, peers', devices, peer);
    }
  }

  // ---------------------------------------------------------------- the interfaces of one member

  function InterfaceOf(own: DeviceDescriptor, interfaces: seq<NetworkInterface>): multiset<NetworkInterface> {
    match InterfaceWithId(interfaces, own.interface)
    case Some(interface) => multiset{interface}
    case None => multiset{}
  }

  /** The interfaces of those devices that belong to the cluster, one each. */
  function ClusterInterfaces(own: seq<DeviceDescriptor>, interfaces: seq<NetworkInterface>, devices: set<DeviceId>)
    : multiset<NetworkInterface>
  {
    if own == [] then multiset{}
    else
      var last := own[|own| - 1];
      ClusterInterfaces(own[..|own| - 1], interfaces, devices)
      + if last.id in devices then InterfaceOf(last, interfaces) else multiset{}
  }

  lemma {:induction false} ClusterInterfacesOfOthers(own: seq<DeviceDescriptor>, interfaces: seq<NetworkInterface>,
                                                     devices: set<DeviceId>, device: DeviceId)
    requires forall i :: 0 <= i < |own| ==> own[i].id != device
    ensures ClusterInterfaces(own, interfaces, devices) == ClusterInterfaces(own, interfaces, devices - {device})
  {
    if own != [] {
      hide InterfaceOf;
      ClusterInterfacesOfOthers(own[..|own| - 1], interfaces, devices, device);
    }
  }

  lemma {:induction false} ClusterInterfacesWithout(own: seq<DeviceDescriptor>, interfaces: seq<NetworkInterface>,
                                                    devices: set<DeviceId>, k: nat)
    requires forall i, j :: 0 <= i < j < |own| ==> own[i].id != own[j].id
    requires k < |own| && own[k].id in devices
    ensures ClusterInterfaces(own, interfaces, devices)
            == ClusterInterfaces(own, interfaces, devices - {own[k].id}) + InterfaceOf(own[k], interfaces)
  {
    hide InterfaceOf;
    var n := |own| - 1;
    if k < n {
      ClusterInterfacesWithout(own[..n], interfaces, devices, k);
      assert own[n].id != own[k].id;
    } else {
      ClusterInterfacesOfOthers(own[..n], interfaces, devices, own[k].id);
    }
  }

  lemma {:induction false} NoClusterInterfaces(own: seq<DeviceDescriptor>, interfaces: seq<NetworkInterface>)
    ensures ClusterInterfaces(own, interfaces, {}) == multiset{}
  {
    if own != [] {
      NoClusterInterfaces(own[..|own| - 1], interfaces);
    }
  }

  /** What is gathered for a well-formed peer are the interfaces of its own cluster devices. */
  lemma {:induction false} GatheredAreClusterInterfaces(peers: seq<PeerDescriptor>, devices: set<DeviceId>,
                                                        peer: PeerDescriptor)
    requires WellFormed(peers) && peer in peers
    ensures Gathered(peers, devices, peer.id) == ClusterInterfaces(peer.devices, peer.interfaces, devices)
    decreases devices
  {
    if devices == {} {
      NoClusterInterfaces(peer.devices, peer.interfaces);
    } else {
      var device :| device in devices;
      GatheredMore(peers, devices, device, peer.id);
      GatheredAreClusterInterfaces(peers, devices - {device}, peer);
      ShareOfPeer(peers, device, peer);
      if i :| 0 <= i < |peer.devices| && peer.devices[i].id == device {
        ClusterInterfacesWithout(peer.devices, peer.interfaces, devices, i);
      } else {
        ClusterInterfacesOfOthers(peer.devices, peer.interfaces, devices, device);
      }
    }
  }

  lemma ShareOfPeer(peers: seq<PeerDescriptor>, device: DeviceId, peer: PeerDescriptor)
    requires WellFormed(peers) && peer in peers
    ensures !Owns(peer, device) ==> Share(peers, device, peer.id) == multiset{}
    ensures forall i :: 0 <= i < |peer.devices| && peer.devices[i].id == device ==>
                          Share(peers, device, peer.id) == InterfaceOf(peer.devices[i], peer.interfaces)
  {
    ContributionIff(peers, device);
    if i :| 0 <= i < |peer.devices| && peer.devices[i].id == device {
      ContributionOfOwner(peers, peer, i);
    }
  }

  /** Any two mappings of the same peers and devices agree. */
  lemma MappingsAgree(m: Mapping, m': Mapping, peers: seq<PeerDescriptor>, devices: set<DeviceId>, leader: PeerId)
    requires IsMapping(m, peers, devices, leader) && IsMapping(m', peers, devices, leader)
    ensures m.Keys == m'.Keys && forall id :: id in m ==> multiset(m[id]) == multiset(m'[id])
  {
    hide Contribution, Gathered;
    assert forall id :: id in m <==> id in m';
  }

  // ---------------------------------------------------------------- which interfaces, by their ids

  predicate IsFirstWithId(interfaces: seq<NetworkInterface>, id: InterfaceId, i: int) {
    0 <= i < |interfaces| && interfaces[i].id == id && forall j :: 0 <= j < i ==> interfaces[j].id != id
  }

  /** Looking up an id finds the first interface that has it, and nothing exactly if none has it. */
  lemma {:induction false} InterfaceLookedUp(interfaces: seq<NetworkInterface>, id: InterfaceId)
    ensures var r := InterfaceWithId(interfaces, id);
            && (r.None? <==> forall i :: 0 <= i < |interfaces| ==> interfaces[i].id != id)
            && (r.Some? ==>
                  && r.value in interfaces && r.value.id == id
                  && exists i :: IsFirstWithId(interfaces, id, i) && r.value == interfaces[i])
  {
    if interfaces == [] {
    } else if interfaces[0].id == id {
      assert IsFirstWithId(interfaces, id, 0);
    } else {
      var rest := interfaces[1..];
      InterfaceLookedUp(rest, id);
      assert forall i :: 0 <= i < |rest| ==> rest[i] == interfaces[i + 1];
      assert forall i :: 1 <= i < |interfaces| ==> interfaces[i] == rest[i - 1];
      if InterfaceWithId(interfaces, id).Some? {
        var i :| IsFirstWithId(rest, id, i) && InterfaceWithId(interfaces, id).value == rest[i];
        assert IsFirstWithId(interfaces, id, i + 1);
      }
    }
  }

  /** The list holds an interface the peer describes under the id its device names. */
  ghost predicate HasInterface(peer: PeerDescriptor, device: DeviceDescriptor, list: multiset<NetworkInterface>) {
    exists x :: x in peer.interfaces && x.id == device.interface && x in list
  }

  /** The list holds interfaces for the peer's cluster devices, and for nothing else. */
  ghost predicate HasInterfaces(peer: PeerDescriptor, devices: set<DeviceId>, list: multiset<NetworkInterface>) {
    && (forall i :: 0 <= i < |peer.devices| && peer.devices[i].id in devices ==>
         HasInterface(peer, peer.devices[i], list))
    && (forall x :: x in list ==>
          x in peer.interfaces
          && exists i :: 0 <= i < |peer.devices| && peer.devices[i].id in devices && peer.devices[i].interface == x.id)
  }

  /** Every interface that is gathered for some device is one of the peer's, with the id that the device names. */
  lemma {:induction false} ClusterInterfacesById(own: seq<DeviceDescriptor>, interfaces: seq<NetworkInterface>,
                                                 devices: set<DeviceId>, x: NetworkInterface)
    ensures x in ClusterInterfaces(own, interfaces, devices) ==>
              x in interfaces && exists i :: 0 <= i < |own| && own[i].id in devices && own[i].interface == x.id
  {
    if own != [] {
      ClusterInterfacesById(own[..|own| - 1], interfaces, devices, x);
      InterfaceLookedUp(interfaces, own[|own| - 1].interface);
      if x in ClusterInterfaces(own[..|own| - 1], interfaces, devices) {
        var i :| 0 <= i < |own| - 1 && own[..|own| - 1][i].id in devices && own[..|own| - 1][i].interface == x.id;
        assert own[i].id in devices && own[i].interface == x.id;
      }
    }
  }

  lemma {:induction false} DeviceHasInterface(own: seq<DeviceDescriptor>, interfaces: seq<NetworkInterface>,
                                              devices: set<DeviceId>, k: nat)
    requires k < |own| && own[k].id in devices && InterfaceWithId(interfaces, own[k].interface).Some?
    ensures InterfaceWithId(interfaces, own[k].interface).value in ClusterInterfaces(own, interfaces, devices)
  {
    if k < |own| - 1 {
      DeviceHasInterface(own[..|own| - 1], interfaces, devices, k);
    }
  }

  lemma ClusterInterfacesHaveIds(peers: seq<PeerDescriptor>, peer: PeerDescriptor, devices: set<DeviceId>)
    requires WellFormed(peers) && peer in peers
    ensures HasInterfaces(peer, devices, ClusterInterfaces(peer.devices, peer.interfaces, devices))
  {
    hide ClusterInterfaces, InterfaceWithId;
    var list := ClusterInterfaces(peer.devices, peer.interfaces, devices);
    forall i | 0 <= i < |peer.devices| && peer.devices[i].id in devices
      ensures HasInterface(peer, peer.devices[i], list)
    {
      DeviceHasInterface(peer.devices, peer.interfaces, devices, i);
      InterfaceLookedUp(peer.interfaces, peer.devices[i].interface);
      var x := InterfaceWithId(peer.interfaces, peer.devices[i].interface).value;
      assert x in peer.interfaces && x.id == peer.devices[i].interface && x in list;
    }
    forall x | x in list
      ensures x in peer.interfaces
      ensures exists i :: 0 <= i < |peer.devices| && peer.devices[i].id in devices && peer.devices[i].interface == x.id
    {
      ClusterInterfacesById(peer.devices, peer.interfaces, devices, x);
    }
  }

  /**
   For well-formed peers that own all devices of the cluster: the members are the leader and the cluster's peers, each
   with the interfaces of its own cluster devices, one interface per device in total; and any two mappings agree, in
   whatever orders the peers were listed and the devices enumerated.
   */
  lemma MappingOfWellFormedPeers(m: Mapping, m': Mapping, peers: seq<PeerDescriptor>, peers': seq<PeerDescriptor>,
                                 devices: set<DeviceId>, leader: PeerId)
    requires WellFormed(peers) && SamePeers(peers, peers')
    requires IsMapping(m, peers, devices, leader) && IsMapping(m', peers', devices, leader)
    requires forall device :: device in devices ==> exists peer :: peer in peers && Owns(peer, device)
    ensures m.Keys == m'.Keys && forall id :: id in m ==> multiset(m[id]) == multiset(m'[id])
    ensures forall id :: id in m <==>
              id == leader || exists peer :: peer in peers && peer.id == id && Meets(peer, devices)
    ensures forall peer :: peer in peers && peer.id in m ==>
                             && multiset(m[peer.id]) == ClusterInterfaces(peer.devices, peer.interfaces, devices)
                             && HasInterfaces(peer, devices, multiset(m[peer.id]))
    ensures MappedInterfaces(m, m.Keys) == |devices|
  {
    hide IsMapping, WellFormed, Contribution, Gathered, ClusterInterfaces, MappedInterfaces, Meets, Owns, SamePeers;
    hide HasInterfaces;
    SameMapping(m', peers, peers', devices, leader);
    MappingsAgree(m, m', peers, devices, leader);
    MembersAreClusterPeers(m, peers, devices, leader);
    ContributorsAreMembers(m, peers, devices, leader);
    OneInterfacePerClusterDevice(peers, devices, m.Keys);
    MappedAreGathered(m, peers, devices, leader, m.Keys);
    InterfacesOfMembers(m, peers, devices, leader);
  }

  lemma ContributorsAreMembers(m: Mapping, peers: seq<PeerDescriptor>, devices: set<DeviceId>, leader: PeerId)
    requires WellFormed(peers) && IsMapping(m, peers, devices, leader)
    requires forall device :: device in devices ==> exists peer :: peer in peers && Owns(peer, device)
    ensures forall device :: device in devices ==>
                               Contribution(peers, device).Success? && Contribution(peers, device).value.0 in m.Keys
  {
    forall device | device in devices
      ensures Contribution(peers, device).Success? && Contribution(peers, device).value.0 in m.Keys
    {
      ContributionIff(peers, device);
    }
  }

  lemma InterfacesOfMembers(m: Mapping, peers: seq<PeerDescriptor>, devices: set<DeviceId>, leader: PeerId)
    requires WellFormed(peers) && IsMapping(m, peers, devices, leader)
    ensures forall peer :: peer in peers && peer.id in m ==>
                             && multiset(m[peer.id]) == ClusterInterfaces(peer.devices, peer.interfaces, devices)
                             && HasInterfaces(peer, devices, multiset(m[peer.id]))
  {
    forall peer | peer in peers && peer.id in m
      ensures multiset(m[peer.id]) == ClusterInterfaces(peer.devices, peer.interfaces, devices)
      ensures HasInterfaces(peer, devices, multiset(m[peer.id]))
    {
      GatheredAreClusterInterfaces(peers, devices, peer);
      ClusterInterfacesHaveIds(peers, peer, devices);
    }
  }
}
