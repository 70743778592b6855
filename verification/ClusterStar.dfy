/**
 The assignment CARL sends to the members of a cluster, and the links that each member sets up from
 it on its own: GRE tunnels between bridges, and CAN routes through Cannelloni.
 */
module ClusterStar {
  import opened Peers
  import opened Wrappers
  import opened CanServerPorts

  datatype PeerClusterAssignment = PeerClusterAssignment(peerId: PeerId, vpnAddress: Address, canServerPort: Port)

  datatype ClusterAssignment = ClusterAssignment(leader: PeerId, assignments: seq<PeerClusterAssignment>)

  // ---------------------------------------------------------------- on the server

  /** Members with their ports and addresses; a member that is not online makes the deployment fail. */
  function MemberAssignments(members: seq<PeerId>, ports: seq<Port>, connections: map<PeerId, PeerConnectionState>)
    : Result<seq<PeerClusterAssignment>, PeerId>
  {
    if members == [] || ports == [] then Success([])
    else if members[0] !in connections || connections[members[0]].Offline? then Failure(members[0])
    else
      var rest :- MemberAssignments(members[1..], ports[1..], connections);
      Success([PeerClusterAssignment(members[0], connections[members[0]].remoteHost, ports[0])] + rest)
  }

  predicate Distinct<T(==)>(s: seq<T>) {
    forall i, j :: 0 <= i < j < |s| ==> s[i] != s[j]
  }

  /** Distinct peers, among them the leader. */
  predicate WellFormed(a: ClusterAssignment) {
    && (forall i, j :: 0 <= i < j < |a.assignments| ==> a.assignments[i].peerId != a.assignments[j].peerId)
    && IsMember(a, a.leader)
  }

  predicate DistinctPorts(a: ClusterAssignment) {
    forall i, j :: 0 <= i < j < |a.assignments| ==> a.assignments[i].canServerPort != a.assignments[j].canServerPort
  }

  predicate IsMember(a: ClusterAssignment, p: PeerId) {
    exists i :: 0 <= i < |a.assignments| && a.assignments[i].peerId == p
  }

  lemma {:induction false} MemberAssignmentsMeaning(members: seq<PeerId>, ports: seq<Port>,
                                                    connections: map<PeerId, PeerConnectionState>)
    requires |members| == |ports|
    ensures MemberAssignments(members, ports, connections).Success? <==>
            forall i :: 0 <= i < |members| ==> members[i] in connections && connections[members[i]].Online?
    ensures var r := MemberAssignments(members, ports, connections);
            r.Failure? ==> r.error in members && !(r.error in connections && connections[r.error].Online?)
    ensures var r := MemberAssignments(members, ports, connections);
            r.Success? ==>
              && |r.value| == |members|
              && forall i :: 0 <= i < |members| ==>
                               && members[i] in connections && connections[members[i]].Online?
                               && r.value[i]
                                    == PeerClusterAssignment(members[i], connections[members[i]].remoteHost, ports[i])
  {
    if members != [] {
      MemberAssignmentsMeaning(members[1..], ports[1..], connections);
      assert forall i :: 1 <= i < |members| ==> members[1..][i - 1] == members[i];
    }
  }

  /** What a deployment with freshly allocated ports sends out satisfies all that the members rely on. */
  lemma DeployedAssignmentWellFormed(start: nat, end: nat, counter: nat, members: seq<PeerId>, leader: PeerId,
                                     connections: map<PeerId, PeerConnectionState>)
    requires InRange(start, end, counter) && Allocate(start, end, counter, |members|).ports.Success?
    requires Distinct(members) && leader in members
    requires forall i :: 0 <= i < |members| ==> members[i] in connections && connections[members[i]].Online?
    ensures var r := MemberAssignments(members, Allocate(start, end, counter, |members|).ports.value, connections);
            && r.Success?
            && WellFormed(ClusterAssignment(leader, r.value)) && DistinctPorts(ClusterAssignment(leader, r.value))
            && forall p :: p in members <==> IsMember(ClusterAssignment(leader, r.value), p)
  {
    var ports := Allocate(start, end, counter, |members|).ports.value;
    AllocatedPorts(start, end, counter, |members|);
    MemberAssignmentsMeaning(members, ports, connections);
    var a := ClusterAssignment(leader, MemberAssignments(members, ports, connections).value);
    forall p
      ensures p in members <==> IsMember(a, p)
    {
      if p in members {
        var i :| 0 <= i < |members| && members[i] == p;
        assert a.assignments[i].peerId == p;
      }
    }
  }

  // ---------------------------------------------------------------- on the members

  datatype SetupError = LocalPeerAssignmentNotFound | LeaderNotDeterminable | Ipv6NotSupported

  function AssignmentOf(assignments: seq<PeerClusterAssignment>, p: PeerId): (r: Option<PeerClusterAssignment>)
    ensures r.Some? ==> r.value in assignments && r.value.peerId == p
    ensures r.None? <==> forall i :: 0 <= i < |assignments| ==> assignments[i].peerId != p
  {
    if assignments == [] then None
    else if assignments[0].peerId == p then Some(assignments[0])
    else AssignmentOf(assignments[1..], p)
  }

  function DetermineLeaderAssignment(a: ClusterAssignment): Result<PeerClusterAssignment, SetupError> {
    match AssignmentOf(a.assignments, a.leader)
    case None => Failure(LeaderNotDeterminable)
    case Some(assignment) => Success(assignment)
  }

  function Others(assignments: seq<PeerClusterAssignment>, p: PeerId): seq<PeerClusterAssignment> {
    if assignments == [] then []
    else (if assignments[0].peerId != p then [assignments[0]] else []) + Others(assignments[1..], p)
  }

  function DetermineRemoteAssignments(a: ClusterAssignment, self: PeerId)
    : Result<seq<PeerClusterAssignment>, SetupError>
  {
    if a.leader == self then Success(Others(a.assignments, self))
    else
      var leaderAssignment :- DetermineLeaderAssignment(a);
      Success([leaderAssignment])
  }

  datatype Tunnel = Tunnel(local: nat, remote: nat)

  function RequireIpv4(assignments: seq<PeerClusterAssignment>): Result<seq<nat>, SetupError> {
    if assignments == [] then Success([])
    else if assignments[0].vpnAddress.V6? then Failure(Ipv6NotSupported)
    else
      var rest :- RequireIpv4(assignments[1..]);
      Success([assignments[0].vpnAddress.value] + rest)
  }

  /** The GRE tunnels of one member. */
  function EthernetTunnels(a: ClusterAssignment, self: PeerId): Result<seq<Tunnel>, SetupError> {
    match AssignmentOf(a.assignments, self)
    case None => Failure(LocalPeerAssignmentNotFound)
    case Some(local) =>
      var localIp :- RequireIpv4([local]);
      var remotes :- DetermineRemoteAssignments(a, self);
      var remoteIps :- RequireIpv4(remotes);
      Success(seq(|remoteIps|, i requires 0 <= i < |remoteIps| => Tunnel(local.vpnAddress.value, remoteIps[i])))
  }

  /** A Cannelloni instance: listening for, or connecting to, the remote address on the port. */
  datatype CanLink = CanLink(isServer: bool, remote: Address, port: Port)

  function CanLinks(a: ClusterAssignment, self: PeerId): Result<seq<CanLink>, SetupError> {
    match AssignmentOf(a.assignments, self)
    case None => Failure(LocalPeerAssignmentNotFound)
    case Some(local) =>
      if a.leader == self then
        var remotes :- DetermineRemoteAssignments(a, self);
        Success(seq(|remotes|, i requires 0 <= i < |remotes| =>
                                 CanLink(true, remotes[i].vpnAddress, remotes[i].canServerPort)))
      else
        var leaderAssignment :- DetermineLeaderAssignment(a);
        Success([CanLink(false, leaderAssignment.vpnAddress, local.canServerPort)])
  }

  // ---------------------------------------------------------------- the star

  /** Member `p` sets up a link to `q`. */
  predicate Linked(a: ClusterAssignment, p: PeerId, q: PeerId) {
    && IsMember(a, p)
    && var remotes := DetermineRemoteAssignments(a, p);
       remotes.Success? && exists i :: 0 <= i < |remotes.value| && remotes.value[i].peerId == q
  }

  lemma {:induction false} OthersMeaning(assignments: seq<PeerClusterAssignment>, p: PeerId, x: PeerClusterAssignment)
    ensures x in Others(assignments, p) <==> x in assignments && x.peerId != p
  {
    if assignments != [] {
      OthersMeaning(assignments[1..], p, x);
      assert assignments == [assignments[0]] + assignments[1..];
    }
  }

  /** Two members are linked, in either direction, exactly if one of them is the leader. */
  lemma LinkedIff(a: ClusterAssignment, p: PeerId, q: PeerId)
    requires WellFormed(a)
    ensures Linked(a, p, q) <==> IsMember(a, p) && IsMember(a, q) && p != q && (p == a.leader || q == a.leader)
  {
    if p == a.leader {
      var others := Others(a.assignments, p);
      if IsMember(a, q) && p != q {
        var i :| 0 <= i < |a.assignments| && a.assignments[i].peerId == q;
        OthersMeaning(a.assignments, p, a.assignments[i]);
        var j :| 0 <= j < |others| && others[j] == a.assignments[i];
        assert others[j].peerId == q;
      }
      if i :| 0 <= i < |others| && others[i].peerId == q {
        OthersMeaning(a.assignments, p, others[i]);
        var j :| 0 <= j < |a.assignments| && a.assignments[j] == others[i];
        assert a.assignments[j].peerId == q;
      }
    } else {
      assert DetermineLeaderAssignment(a).Success?;
      assert DetermineRemoteAssignments(a, p).value[0].peerId == a.leader;
    }
  }

  ghost predicate IsPath(a: ClusterAssignment, path: seq<PeerId>) {
    forall i :: 0 <= i < |path| - 1 ==> Linked(a, path[i], path[i + 1])
  }

  /** Links are symmetric: both ends set them up, independently. */
  lemma LinksSymmetric(a: ClusterAssignment, p: PeerId, q: PeerId)
    requires WellFormed(a)
    ensures Linked(a, p, q) == Linked(a, q, p)
  {
    LinkedIff(a, p, q);
    LinkedIff(a, q, p);
  }

  /** Any two members are connected by at most two links. */
  lemma Connected(a: ClusterAssignment, p: PeerId, q: PeerId) returns (path: seq<PeerId>)
    requires WellFormed(a) && IsMember(a, p) && IsMember(a, q)
    ensures 1 <= |path| <= 3 && path[0] == p && path[|path| - 1] == q && IsPath(a, path)
  {
    LinkedIff(a, p, q);
    LinkedIff(a, p, a.leader);
    LinkedIff(a, a.leader, q);
    if p == q {
      path := [p];
    } else if p == a.leader || q == a.leader {
      path := [p, q];
    } else {
      path := [p, a.leader, q];
    }
  }

  /** No three or more distinct members are linked in a ring. */
  lemma Acyclic(a: ClusterAssignment, ring: seq<PeerId>)
    requires WellFormed(a) && |ring| >= 3 && Distinct(ring)
    ensures !(IsPath(a, ring) && Linked(a, ring[|ring| - 1], ring[0]))
  {
    LinkedIff(a, ring[0], ring[1]);
    LinkedIff(a, ring[1], ring[2]);
    LinkedIff(a, ring[|ring| - 1], ring[0]);
  }

  lemma {:induction false} TheAssignment(assignments: seq<PeerClusterAssignment>, k: nat)
    requires k < |assignments|
    requires forall i, j :: 0 <= i < j < |assignments| ==> assignments[i].peerId != assignments[j].peerId
    ensures AssignmentOf(assignments, assignments[k].peerId) == Some(assignments[k])
  {
    if k > 0 {
      assert forall i :: 0 <= i < |assignments| - 1 ==> assignments[1..][i] == assignments[i + 1];
      TheAssignment(assignments[1..], k - 1);
    }
  }

  lemma {:induction false} OthersDistinct(assignments: seq<PeerClusterAssignment>, p: PeerId)
    requires forall i, j :: 0 <= i < j < |assignments| ==> assignments[i].canServerPort != assignments[j].canServerPort
    ensures var others := Others(assignments, p);
            forall i, j :: 0 <= i < j < |others| ==> others[i].canServerPort != others[j].canServerPort
  {
    if assignments != [] {
      var rest := Others(assignments[1..], p);
      OthersDistinct(assignments[1..], p);
      forall i | 0 <= i < |rest|
        ensures rest[i].canServerPort != assignments[0].canServerPort
      {
        OthersMeaning(assignments[1..], p, rest[i]);
        var j :| 0 <= j < |assignments| - 1 && assignments[1..][j] == rest[i];
        assert assignments[j + 1] == rest[i];
      }
    }
  }

  /**
   Each member but the leader connects to the leader's address on one port, and the leader listens on that port, once
   and for that member's address only; all ports the leader listens on are different.
   */
  lemma PortsPaired(a: ClusterAssignment, k: nat)
    requires WellFormed(a) && DistinctPorts(a) && k < |a.assignments| && a.assignments[k].peerId != a.leader
    ensures var member := a.assignments[k];
            && CanLinks(a, a.leader).Success? && DetermineLeaderAssignment(a).Success?
            && DetermineLeaderAssignment(a).value in a.assignments
            && DetermineLeaderAssignment(a).value.peerId == a.leader
            && CanLinks(a, member.peerId)
               == Success([CanLink(false, DetermineLeaderAssignment(a).value.vpnAddress, member.canServerPort)])
            && CanLink(true, member.vpnAddress, member.canServerPort) in CanLinks(a, a.leader).value
            && var servers := CanLinks(a, a.leader).value;
               && (forall i :: 0 <= i < |servers| && servers[i].port == member.canServerPort ==>
                                 servers[i] == CanLink(true, member.vpnAddress, member.canServerPort))
               && forall i, j :: 0 <= i < j < |servers| ==> servers[i].port != servers[j].port
  {
    var member := a.assignments[k];
    TheAssignment(a.assignments, k);
    var others := Others(a.assignments, a.leader);
    OthersMeaning(a.assignments, a.leader, member);
    OthersDistinct(a.assignments, a.leader);
    var i :| 0 <= i < |others| && others[i] == member;
    assert CanLinks(a, a.leader).value[i] == CanLink(true, member.vpnAddress, member.canServerPort);
  }

  /** The assignments of the others are all but one, if the peer is among the distinct peers. */
  lemma {:induction false} OthersCount(assignments: seq<PeerClusterAssignment>, p: PeerId)
    requires forall i, j :: 0 <= i < j < |assignments| ==> assignments[i].peerId != assignments[j].peerId
    ensures |Others(assignments, p)|
            == |assignments| - if exists i :: 0 <= i < |assignments| && assignments[i].peerId == p then 1 else 0
  {
    if assignments != [] {
      var rest := assignments[1..];
      OthersCount(rest, p);
      assert forall i :: 0 <= i < |rest| ==> rest[i] == assignments[i + 1];
      assert (exists i :: 0 <= i < |rest| && rest[i].peerId == p) <==>
             exists i :: 1 <= i < |assignments| && assignments[i].peerId == p by {
        if i :| 1 <= i < |assignments| && assignments[i].peerId == p {
          assert rest[i - 1].peerId == p;
        }
      }
    }
  }

  /** The link is one the leader serves to a member other than itself. */
  ghost predicate ServesMember(a: ClusterAssignment, link: CanLink) {
    exists k :: && 0 <= k < |a.assignments| && a.assignments[k].peerId != a.leader
                && link == CanLink(true, a.assignments[k].vpnAddress, a.assignments[k].canServerPort)
  }

  /** The leader has one server for each other member, and none besides. */
  lemma LeaderServesOthers(a: ClusterAssignment)
    requires WellFormed(a)
    ensures CanLinks(a, a.leader).Success? && |CanLinks(a, a.leader).value| == |a.assignments| - 1
    ensures forall link :: link in CanLinks(a, a.leader).value ==> ServesMember(a, link)
  {
    OthersCount(a.assignments, a.leader);
    var others, links := Others(a.assignments, a.leader), CanLinks(a, a.leader).value;
    forall link | link in links
      ensures ServesMember(a, link)
    {
      var i :| 0 <= i < |links| && links[i] == link;
      OthersMeaning(a.assignments, a.leader, others[i]);
      var k :| 0 <= k < |a.assignments| && a.assignments[k] == others[i];
    }
  }

  /** Setting up CAN links fails exactly if the peer or the leader is not among the assigned ones. */
  lemma CanLinksExistIff(a: ClusterAssignment, p: PeerId)
    ensures CanLinks(a, p).Success? <==> IsMember(a, p) && IsMember(a, a.leader)
    ensures !IsMember(a, p) ==> CanLinks(a, p) == Failure(LocalPeerAssignmentNotFound)
    ensures IsMember(a, p) && !IsMember(a, a.leader) ==> CanLinks(a, p) == Failure(LeaderNotDeterminable)
  {
  }

  lemma {:induction false} RequireIpv4Meaning(assignments: seq<PeerClusterAssignment>)
    ensures RequireIpv4(assignments).Success? <==> forall i :: 0 <= i < |assignments| ==> assignments[i].vpnAddress.V4?
    ensures RequireIpv4(assignments).Success? ==>
              && |RequireIpv4(assignments).value| == |assignments|
              && forall i :: 0 <= i < |assignments| ==>
                   RequireIpv4(assignments).value[i] == assignments[i].vpnAddress.value
  {
    if assignments != [] {
      RequireIpv4Meaning(assignments[1..]);
      assert forall i :: 1 <= i < |assignments| ==> assignments[i] == assignments[1..][i - 1];
    }
  }

  /** A member other than the leader has one tunnel, from its own address to the leader's. */
  lemma MemberTunnel(a: ClusterAssignment, k: nat, l: nat)
    requires WellFormed(a) && k < |a.assignments| && a.assignments[k].peerId != a.leader
    requires l < |a.assignments| && a.assignments[l].peerId == a.leader
    ensures var member, leader := a.assignments[k], a.assignments[l];
            && (EthernetTunnels(a, member.peerId).Success? <==> member.vpnAddress.V4? && leader.vpnAddress.V4?)
            && (EthernetTunnels(a, member.peerId).Success? ==>
                  EthernetTunnels(a, member.peerId).value
                  == [Tunnel(member.vpnAddress.value, leader.vpnAddress.value)])
  {
    var member, leader := a.assignments[k], a.assignments[l];
    TheAssignment(a.assignments, k);
    TheAssignment(a.assignments, l);
    RequireIpv4Meaning([member]);
    RequireIpv4Meaning([leader]);
    assert [leader][0] == leader && [member][0] == member;
  }

  /** The leader has one tunnel for each other member, from its own address to a member's. */
  lemma LeaderTunnels(a: ClusterAssignment, l: nat)
    requires WellFormed(a) && l < |a.assignments| && a.assignments[l].peerId == a.leader
    requires EthernetTunnels(a, a.leader).Success?
    ensures |EthernetTunnels(a, a.leader).value| == |a.assignments| - 1
    ensures forall tunnel :: tunnel in EthernetTunnels(a, a.leader).value ==>
                               exists k :: && 0 <= k < |a.assignments| && a.assignments[k].peerId != a.leader
                                           && tunnel == Tunnel(a.assignments[l].vpnAddress.value,
                                                               a.assignments[k].vpnAddress.value)
  {
    var others, tunnels := Others(a.assignments, a.leader), EthernetTunnels(a, a.leader).value;
    TheAssignment(a.assignments, l);
    OthersCount(a.assignments, a.leader);
    RequireIpv4Meaning(others);
    forall tunnel | tunnel in tunnels
      ensures exists k :: && 0 <= k < |a.assignments| && a.assignments[k].peerId != a.leader
                          && tunnel == Tunnel(a.assignments[l].vpnAddress.value, a.assignments[k].vpnAddress.value)
    {
      var i :| 0 <= i < |tunnels| && tunnels[i] == tunnel;
      OthersMeaning(a.assignments, a.leader, others[i]);
      var k :| 0 <= k < |a.assignments| && a.assignments[k] == others[i];
    }
  }

  /**
   The leader's tunnels exist exactly if all members have IPv4 addresses, and then every tunnel has its counterpart.
   */
  lemma TunnelsMatch(a: ClusterAssignment, k: nat)
    requires WellFormed(a) && k < |a.assignments| && a.assignments[k].peerId != a.leader
    ensures EthernetTunnels(a, a.leader).Success? <==>
            forall i :: 0 <= i < |a.assignments| ==> a.assignments[i].vpnAddress.V4?
    ensures EthernetTunnels(a, a.leader).Success? ==>
              && var tunnels := EthernetTunnels(a, a.assignments[k].peerId);
                 && tunnels.Success? && |tunnels.value| == 1
                 && Tunnel(tunnels.value[0].remote, tunnels.value[0].local) in EthernetTunnels(a, a.leader).value
  {
    var member, others := a.assignments[k], Others(a.assignments, a.leader);
    var leader := DetermineLeaderAssignment(a).value;
    TheAssignment(a.assignments, k);
    RequireIpv4Meaning([member]);
    RequireIpv4Meaning([leader]);
    RequireIpv4Meaning(others);
    assert [leader][0] == leader && [member][0] == member;
    forall i | 0 <= i < |a.assignments|
      ensures a.assignments[i] == leader || a.assignments[i] in others
    {
      OthersMeaning(a.assignments, a.leader, a.assignments[i]);
      TheAssignment(a.assignments, i);
    }
    forall i | 0 <= i < |others|
      ensures others[i] in a.assignments
    {
      OthersMeaning(a.assignments, a.leader, others[i]);
    }
    var j :| 0 <= j < |others| && others[j] == member;
    if EthernetTunnels(a, a.leader).Success? {
      assert EthernetTunnels(a, a.leader).value[j] == Tunnel(leader.vpnAddress.value, member.vpnAddress.value);
    }
  }
}
