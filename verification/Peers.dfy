/**
 Identifiers and connection states shared by the models of CARL. Numbers stand for UUIDs and the digits of addresses.
 */
module Peers {
  type PeerId = nat
  type ClusterId = nat
  type DeviceId = nat

  datatype Address = V4(value: nat) | V6(value: nat)

  datatype PeerConnectionState = Offline | Online(remoteHost: Address)
}
