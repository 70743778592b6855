/** Peers with their devices and network interfaces, and clusters of devices. */
module Topology {
  import opened Peers

  type InterfaceId = nat

  datatype NetworkInterface = NetworkInterface(id: InterfaceId, name: string)

  datatype DeviceDescriptor = DeviceDescriptor(id: DeviceId, interface: InterfaceId)

  datatype PeerDescriptor = PeerDescriptor(id: PeerId, devices: seq<DeviceDescriptor>,
                                           interfaces: seq<NetworkInterface>)

  datatype ClusterConfiguration = ClusterConfiguration(leader: PeerId, devices: set<DeviceId>)

  /** Some device of the peer is among the given ones. */
  predicate Meets(peer: PeerDescriptor, devices: set<DeviceId>) {
    exists i :: 0 <= i < |peer.devices| && peer.devices[i].id in devices
  }
}
