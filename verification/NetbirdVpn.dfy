/**
 Creating and deleting a cluster in NetBird: ordered calls that change groups and policies of a remote service, each of
 which may fail before or after it took effect.
 */
module NetbirdVpn {
  import opened Peers
  import opened Wrappers

  type NetbirdId = nat

  datatype GroupName = ClusterGroup(cluster: ClusterId) | PeerGroup(peer: PeerId) | OtherGroup(text: string)
  datatype PolicyName = ClusterPolicy(cluster: ClusterId) | OtherPolicy(text: string)

  datatype Group = Group(name: GroupName, peers: seq<NetbirdId>)
  datatype Policy = Policy(name: PolicyName, group: NetbirdId)

  /** What NetBird stores; identifiers are handed out by a counter. */
  datatype Remote = Remote(groups: map<NetbirdId, Group>, policies: map<NetbirdId, Policy>, nextId: NetbirdId)

  datatype RequestError = IllegalStatus(code: nat) | IllegalRequest(code: nat) | OtherFailure

  const NOT_FOUND := IllegalStatus(404)

  /** How a call fares: unimpaired, failed without effect, or failed although it took effect. */
  datatype Fault = NoFault | FailsBefore(error: RequestError) | FailsAfter(error: RequestError)

  datatype DeleteFaults = DeleteFaults(getPolicy: Fault, deletePolicy: Fault, getGroup: Fault, deleteGroup: Fault)
  datatype CreateFaults = CreateFaults(deletion: DeleteFaults, unresolved: set<PeerId>, createGroup: Fault,
                                       createPolicy: Fault)

  const NO_DELETE_FAULTS := DeleteFaults(NoFault, NoFault, NoFault, NoFault)
  const NO_CREATE_FAULTS := CreateFaults(NO_DELETE_FAULTS, {}, NoFault, NoFault)

  datatype LookupError = Missing | Ambiguous | RequestFailure
  datatype DeleteClusterError = NotFound | DeletionFailure
  datatype CreateClusterError = CreationFailure | PeerResolutionFailure(peer: PeerId) | AccessPolicyCreationFailure

  // ---------------------------------------------------------------- specification

  function GroupIds(r: Remote, name: GroupName): set<NetbirdId> {
    set id | id in r.groups && r.groups[id].name == name
  }

  function PolicyIds(r: Remote, name: PolicyName): set<NetbirdId> {
    set id | id in r.policies && r.policies[id].name == name
  }

  /** Looking something up by its name fails unless exactly one has it. */
  ghost function LookUp(ids: set<NetbirdId>, fault: Fault): Result<NetbirdId, LookupError> {
    if fault != NoFault then Failure(RequestFailure)
    else if |ids| > 1 then Failure(Ambiguous)
    else if id :| id in ids then Success(id)
    else Failure(Missing)
  }

  function Reply(fault: Fault): Result<(), RequestError> {
    if fault == NoFault then Success(()) else Failure(fault.error)
  }

  /** Only an error of one kind, with the status 404, counts as not found. */
  function DeletionError(error: RequestError): DeleteClusterError {
    if error == NOT_FOUND then NotFound else DeletionFailure
  }

  function WithoutPolicy(r: Remote, id: NetbirdId, fault: Fault): Remote {
    if fault.FailsBefore? then r else r.(policies := r.policies - {id})
  }

  function WithoutGroup(r: Remote, id: NetbirdId, fault: Fault): Remote {
    if fault.FailsBefore? then r else r.(groups := r.groups - {id})
  }

  function WithGroup(r: Remote, name: GroupName, peers: seq<NetbirdId>, fault: Fault): Remote {
    if fault.FailsBefore? then r
    else r.(groups := r.groups[r.nextId := Group(name, peers)], nextId := r.nextId + 1)
  }

  function WithPolicy(r: Remote, name: PolicyName, group: NetbirdId, fault: Fault): Remote {
    if fault.FailsBefore? then r
    else r.(policies := r.policies[r.nextId := Policy(name, group)], nextId := r.nextId + 1)
  }

  ghost function DeletePolicyOf(r: Remote, c: ClusterId, f: DeleteFaults): (Remote, Result<(), DeleteClusterError>) {
    match LookUp(PolicyIds(r, ClusterPolicy(c)), f.getPolicy)
    case Failure(Missing) => (r, Success(()))
    case Failure(_) => (r, Failure(DeletionFailure))
    case Success(id) =>
      (WithoutPolicy(r, id, f.deletePolicy),
       if f.deletePolicy == NoFault then Success(()) else Failure(DeletionError(f.deletePolicy.error)))
  }

  ghost function DeleteGroupOf(r: Remote, c: ClusterId, f: DeleteFaults): (Remote, Result<(), DeleteClusterError>) {
    match LookUp(GroupIds(r, ClusterGroup(c)), f.getGroup)
    case Failure(Missing) => (r, Success(()))
    case Failure(_) => (r, Failure(DeletionFailure))
    case Success(id) =>
      (WithoutGroup(r, id, f.deleteGroup),
       if f.deleteGroup == NoFault then Success(()) else Failure(DeletionError(f.deleteGroup.error)))
  }

  ghost function Deleted(r: Remote, c: ClusterId, f: DeleteFaults): (Remote, Result<(), DeleteClusterError>) {
    var (r', result) := DeletePolicyOf(r, c, f);
    if result.Failure? then (r', result) else DeleteGroupOf(r', c, f)
  }

  /** The NetBird peer that represents a peer: the first one of its own group. */
  ghost function FirstPeer(r: Remote, p: PeerId, unresolved: set<PeerId>): Option<NetbirdId> {
    match LookUp(GroupIds(r, PeerGroup(p)), if p in unresolved then FailsBefore(OtherFailure) else NoFault)
    case Failure(_) => None
    case Success(id) => if id in r.groups && r.groups[id].peers != [] then Some(r.groups[id].peers[0]) else None
  }

  /** The NetBird peers of all given peers, or the first peer that has none. */
  ghost function FirstPeers(r: Remote, peers: seq<PeerId>, unresolved: set<PeerId>): Result<seq<NetbirdId>, PeerId> {
    if peers == [] then Success([])
    else
      var front :- FirstPeers(r, peers[..|peers| - 1], unresolved);
      match FirstPeer(r, peers[|peers| - 1], unresolved)
      case None => Failure(peers[|peers| - 1])
      case Some(id) => Success(front + [id])
  }

  /** The group and policy phase of creating, after the deletion led to `d`. */
  function Added(d: Remote, c: ClusterId, peers: seq<NetbirdId>, f: CreateFaults)
    : (Remote, Result<(), CreateClusterError>)
  {
    var grouped := WithGroup(d, ClusterGroup(c), peers, f.createGroup);
    if f.createGroup != NoFault then (grouped, Failure(CreationFailure))
    else
      (WithPolicy(grouped, ClusterPolicy(c), d.nextId, f.createPolicy),
       if f.createPolicy == NoFault then Success(()) else Failure(AccessPolicyCreationFailure))
  }

  /** The remote state after an attempt to create the cluster, and its result. */
  ghost function Created(r: Remote, c: ClusterId, peers: seq<PeerId>, f: CreateFaults)
    : (Remote, Result<(), CreateClusterError>)
  {
    var (deleted, result) := Deleted(r, c, f.deletion);
    if result == Failure(DeletionFailure) then (deleted, Failure(CreationFailure))
    else
      match FirstPeers(deleted, peers, f.unresolved)
      case Failure(peer) => (deleted, Failure(PeerResolutionFailure(peer)))
      case Success(netbirdPeers) => Added(deleted, c, netbirdPeers, f)
  }

  // ---------------------------------------------------------------- the client

  class NetbirdManagementClient {
    var remote: Remote

    constructor (remote: Remote)
      ensures this.remote == remote
    {
      this.remote := remote;
    }

    /** Fetches all and filters by name, for groups as for policies. */
    method Find(ids: set<NetbirdId>, fault: Fault) returns (r: Result<NetbirdId, LookupError>)
      ensures r == LookUp(ids, fault)
    {
      if fault != NoFault {
        return Failure(RequestFailure);
      }
      if |ids| > 1 {
        return Failure(Ambiguous);
      }
      if ids == {} {
        return Failure(Missing);
      }
      var id :| id in ids;
      AtMostOne(ids);
      r := Success(id);
    }

    method DeleteNetbirdPolicy(id: NetbirdId, fault: Fault) returns (r: Result<(), RequestError>)
      modifies this
      ensures remote == WithoutPolicy(old(remote), id, fault) && r == Reply(fault)
    {
      if !fault.FailsBefore? {
        remote := remote.(policies := remote.policies - {id});
      }
      r := Reply(fault);
    }

    method DeleteNetbirdGroup(id: NetbirdId, fault: Fault) returns (r: Result<(), RequestError>)
      modifies this
      ensures remote == WithoutGroup(old(remote), id, fault) && r == Reply(fault)
    {
      if !fault.FailsBefore? {
        remote := remote.(groups := remote.groups - {id});
      }
      r := Reply(fault);
    }

    method CreateNetbirdGroup(name: GroupName, peers: seq<NetbirdId>, fault: Fault)
      returns (r: Result<NetbirdId, RequestError>)
      modifies this
      ensures remote == WithGroup(old(remote), name, peers, fault)
      ensures r == if fault == NoFault then Success(old(remote).nextId) else Failure(fault.error)
    {
      var id := remote.nextId;
      if !fault.FailsBefore? {
        remote := Remote(remote.groups[id := Group(name, peers)], remote.policies, id + 1);
      }
      r := if fault == NoFault then Success(id) else Failure(fault.error);
    }

    method CreateNetbirdSelfPolicy(group: NetbirdId, name: PolicyName, fault: Fault)
      returns (r: Result<(), RequestError>)
      modifies this
      ensures remote == WithPolicy(old(remote), name, group, fault) && r == Reply(fault)
    {
      if !fault.FailsBefore? {
        remote := Remote(remote.groups, remote.policies[remote.nextId := Policy(name, group)], remote.nextId + 1);
      }
      r := Reply(fault);
    }

    method DeleteCluster(c: ClusterId, f: DeleteFaults) returns (r: Result<(), DeleteClusterError>)
      modifies this
      ensures (remote, r) == Deleted(old(remote), c, f)
    {
      var policy := Find(PolicyIds(remote, ClusterPolicy(c)), f.getPolicy);
      match policy {
        case Success(id) =>
          var reply := DeleteNetbirdPolicy(id, f.deletePolicy);
          if reply.Failure? {
            return Failure(DeletionError(reply.error));
          }
        case Failure(Missing) =>
        case Failure(_) =>
          return Failure(DeletionFailure);
      }
      var group := Find(GroupIds(remote, ClusterGroup(c)), f.getGroup);
      match group {
        case Success(id) =>
          var reply := DeleteNetbirdGroup(id, f.deleteGroup);
          if reply.Failure? {
            return Failure(DeletionError(reply.error));
          }
          r := Success(());
        case Failure(Missing) =>
          r := Success(());
        case Failure(_) =>
          r := Failure(DeletionFailure);
      }
    }

    method CreateCluster(c: ClusterId, peers: seq<PeerId>, f: CreateFaults) returns (r: Result<(), CreateClusterError>)
      modifies this
      ensures (remote, r) == Created(old(remote), c, peers, f)
      ensures r.Success? && old(Fresh(remote) && Tidy(remote, c)) && Tidy(remote, c) ==>
                IsClusterOf(remote, c, old(remote), peers)
      ensures forall p :: r == Failure(PeerResolutionFailure(p)) && old(Fresh(remote)) ==>
                            p in peers && (p in f.unresolved || !IsRepresented(old(remote), p))
      ensures r == Failure(AccessPolicyCreationFailure) ==> f.createPolicy != NoFault
    {
      if Fresh(remote) {
        UnresolvedPeer(remote, c, peers, f);
        if Tidy(remote, c) {
          CreateKeepsTidyIff(remote, c, peers, f);
        }
      }
      hide Fresh, Tidy, IsClusterOf, IsRepresented, Deleted, Added, Resolvable;
      var deleted := DeleteCluster(c, f.deletion);
      if deleted == Failure(DeletionFailure) {
        return Failure(CreationFailure);
      }
      var netbirdPeers: seq<NetbirdId> := [];
      for i := 0 to |peers|
        invariant remote == Deleted(old(remote), c, f.deletion).0
        invariant FirstPeers(remote, peers[..i], f.unresolved) == Success(netbirdPeers)
      {
        assert peers[..i + 1][..i] == peers[..i];
        var fault := if peers[i] in f.unresolved then FailsBefore(OtherFailure) else NoFault;
        var id := Find(GroupIds(remote, PeerGroup(peers[i])), fault);
        if id.Failure? || remote.groups[id.value].peers == [] {
          FirstPeersFailure(remote, peers, i + 1, f.unresolved);
          return Failure(PeerResolutionFailure(peers[i]));
        }
        netbirdPeers := netbirdPeers + [remote.groups[id.value].peers[0]];
      }
      assert peers[..|peers|] == peers;
      var group := CreateNetbirdGroup(ClusterGroup(c), netbirdPeers, f.createGroup);
      if group.Failure? {
        return Failure(CreationFailure);
      }
      var policy := CreateNetbirdSelfPolicy(group.value, ClusterPolicy(c), f.createPolicy);
      if policy.Failure? {
        return Failure(AccessPolicyCreationFailure);
      }
      r := Success(());
    }
  }

  // ---------------------------------------------------------------- tidiness

  lemma AtMostOne(ids: set<NetbirdId>)
    ensures |ids| <= 1 <==> forall a, b :: a in ids && b in ids ==> a == b
  {
    if a, b :| a in ids && b in ids && a != b {
      assert {a, b} <= ids;
      assert |ids| == |ids - {a, b}| + |{a, b}|;
    } else if a :| a in ids {
      assert ids == {a};
    }
  }

  /** Identifiers not handed out yet are not in use. */
  predicate Fresh(r: Remote) {
    (forall id :: id in r.groups ==> id < r.nextId) && (forall id :: id in r.policies ==> id < r.nextId)
  }

  /** At most one group and one policy for the cluster, and no policy whose group is gone. */
  predicate Tidy(r: Remote, c: ClusterId) {
    && (forall a, b :: a in GroupIds(r, ClusterGroup(c)) && b in GroupIds(r, ClusterGroup(c)) ==> a == b)
    && (forall a, b :: a in PolicyIds(r, ClusterPolicy(c)) && b in PolicyIds(r, ClusterPolicy(c)) ==> a == b)
    && (forall id :: id in PolicyIds(r, ClusterPolicy(c)) ==> r.policies[id].group in GroupIds(r, ClusterGroup(c)))
  }

  /** Everything except the given cluster is the same in both states. */
  predicate SameElsewhere(r: Remote, r': Remote, c: ClusterId) {
    && (forall id :: id in r.groups && r.groups[id].name != ClusterGroup(c) ==>
         id in r'.groups && r'.groups[id] == r.groups[id])
    && (forall id :: id in r'.groups && r'.groups[id].name != ClusterGroup(c) ==>
         id in r.groups && r.groups[id] == r'.groups[id])
    && (forall id :: id in r.policies && r.policies[id].name != ClusterPolicy(c) ==>
                       id in r'.policies && r'.policies[id] == r.policies[id])
    && (forall id :: id in r'.policies && r'.policies[id].name != ClusterPolicy(c) ==>
                       id in r.policies && r.policies[id] == r'.policies[id])
  }

  lemma LookUpMeaning(ids: set<NetbirdId>, fault: Fault)
    ensures fault == NoFault && |ids| == 1 <==> LookUp(ids, fault).Success?
    ensures LookUp(ids, fault).Success? ==> ids == {LookUp(ids, fault).value}
    ensures LookUp(ids, fault) == Failure(Missing) <==> fault == NoFault && ids == {}
    ensures |ids| <= 1 <==> forall a, b :: a in ids && b in ids ==> a == b
  {
    AtMostOne(ids);
  }

  /** Deleting, however it fares, keeps every cluster tidy, and if it succeeds nothing is left of the cluster. */
  lemma DeletionMeaning(r: Remote, c: ClusterId, f: DeleteFaults)
    requires Fresh(r)
    ensures var (r', result) := Deleted(r, c, f);
            && Fresh(r') && SameElsewhere(r, r', c) && r'.nextId == r.nextId
            && (Tidy(r, c) ==> Tidy(r', c))
            && (result.Success? ==> GroupIds(r', ClusterGroup(c)) == {} && PolicyIds(r', ClusterPolicy(c)) == {})
  {
    LookUpMeaning(PolicyIds(r, ClusterPolicy(c)), f.getPolicy);
    var (r1, _) := DeletePolicyOf(r, c, f);
    LookUpMeaning(GroupIds(r1, ClusterGroup(c)), f.getGroup);
    assert GroupIds(r1, ClusterGroup(c)) == GroupIds(r, ClusterGroup(c));
    hide LookUp;
  }

  /** A tidy cluster's deletion answers "not found", although the group is still there. */
  predicate NotFoundButPresent(r: Remote, c: ClusterId, f: DeleteFaults) {
    && f.getPolicy == NoFault
    && if PolicyIds(r, ClusterPolicy(c)) != {} && f.deletePolicy != NoFault then f.deletePolicy.error == NOT_FOUND
       else GroupIds(r, ClusterGroup(c)) != {} && f.getGroup == NoFault && f.deleteGroup == FailsBefore(NOT_FOUND)
  }

  lemma NotFoundButPresentIff(r: Remote, c: ClusterId, f: DeleteFaults)
    requires Fresh(r) && Tidy(r, c)
    ensures var (r', result) := Deleted(r, c, f);
            NotFoundButPresent(r, c, f) <==> result == Failure(NotFound) && GroupIds(r', ClusterGroup(c)) != {}
  {
    LookUpMeaning(PolicyIds(r, ClusterPolicy(c)), f.getPolicy);
    var (r1, _) := DeletePolicyOf(r, c, f);
    LookUpMeaning(GroupIds(r1, ClusterGroup(c)), f.getGroup);
    assert GroupIds(r1, ClusterGroup(c)) == GroupIds(r, ClusterGroup(c));
    hide LookUp;
  }

  lemma {:induction false} FirstPeersFailure(r: Remote, peers: seq<PeerId>, i: nat, unresolved: set<PeerId>)
    requires i <= |peers| && FirstPeers(r, peers[..i], unresolved).Failure?
    ensures FirstPeers(r, peers, unresolved) == FirstPeers(r, peers[..i], unresolved)
    decreases |peers|
  {
    if i < |peers| {
      var front := peers[..|peers| - 1];
      assert front[..i] == peers[..i];
      FirstPeersFailure(r, front, i, unresolved);
    } else {
      assert peers[..i] == peers;
    }
  }

  /** Resolving succeeds exactly if every peer is found, and pairs each with its first NetBird peer. */
  lemma {:induction false} FirstPeersMeaning(r: Remote, peers: seq<PeerId>, unresolved: set<PeerId>)
    ensures FirstPeers(r, peers, unresolved).Success? <==>
            forall i :: 0 <= i < |peers| ==> FirstPeer(r, peers[i], unresolved).Some?
    ensures FirstPeers(r, peers, unresolved).Success? ==>
              && |FirstPeers(r, peers, unresolved).value| == |peers|
              && forall i :: 0 <= i < |peers| ==>
                               FirstPeer(r, peers[i], unresolved) == Some(FirstPeers(r, peers, unresolved).value[i])
  {
    if peers != [] {
      var front := peers[..|peers| - 1];
      FirstPeersMeaning(r, front, unresolved);
      assert forall i :: 0 <= i < |front| ==> front[i] == peers[i];
    }
  }

  /** The peer has exactly one group of its own, and this NetBird peer is the first one in it. */
  ghost predicate Represents(r: Remote, p: PeerId, id: NetbirdId) {
    exists g :: && g in r.groups && GroupIds(r, PeerGroup(p)) == {g}
                && r.groups[g].peers != [] && r.groups[g].peers[0] == id
  }

  ghost predicate IsRepresented(r: Remote, p: PeerId) {
    exists g :: g in r.groups && GroupIds(r, PeerGroup(p)) == {g} && r.groups[g].peers != []
  }

  /** Every peer is represented in NetBird, and can be looked up. */
  ghost predicate Resolvable(r: Remote, peers: seq<PeerId>, unresolved: set<PeerId>) {
    forall i :: 0 <= i < |peers| ==> peers[i] !in unresolved && IsRepresented(r, peers[i])
  }

  /**
   In the state `r'` the cluster has exactly one group and exactly one policy, which is for that group, and the group
   consists of the NetBird peers that represent the peers in `r`, in their order.
   */
  ghost predicate IsClusterOf(r': Remote, c: ClusterId, r: Remote, peers: seq<PeerId>) {
    exists group, policy ::
      && GroupIds(r', ClusterGroup(c)) == {group} && group in r'.groups
      && |r'.groups[group].peers| == |peers|
      && (forall i :: 0 <= i < |peers| ==> Represents(r, peers[i], r'.groups[group].peers[i]))
      && PolicyIds(r', ClusterPolicy(c)) == {policy} && policy in r'.policies
      && r'.policies[policy].group == group
  }

  lemma FirstPeerMeaning(r: Remote, p: PeerId, unresolved: set<PeerId>)
    ensures FirstPeer(r, p, unresolved).Some? <==> p !in unresolved && IsRepresented(r, p)
    ensures FirstPeer(r, p, unresolved).Some? ==> Represents(r, p, FirstPeer(r, p, unresolved).value)
  {
    var ids := GroupIds(r, PeerGroup(p));
    LookUpMeaning(ids, if p in unresolved then FailsBefore(OtherFailure) else NoFault);
    if FirstPeer(r, p, unresolved).Some? {
      var g := LookUp(ids, NoFault).value;
      assert g in ids && g in r.groups;
    } else if g :| g in r.groups && ids == {g} && r.groups[g].peers != [] {
      assert |ids| == 1;
    }
  }

  lemma ResolvedMeaning(r: Remote, peers: seq<PeerId>, unresolved: set<PeerId>)
    ensures FirstPeers(r, peers, unresolved).Success? <==> Resolvable(r, peers, unresolved)
    ensures FirstPeers(r, peers, unresolved).Success? ==>
              && |FirstPeers(r, peers, unresolved).value| == |peers|
              && forall i :: 0 <= i < |peers| ==> Represents(r, peers[i], FirstPeers(r, peers, unresolved).value[i])
  {
    FirstPeersMeaning(r, peers, unresolved);
    forall i | 0 <= i < |peers|
      ensures FirstPeer(r, peers[i], unresolved).Some? <==> peers[i] !in unresolved && IsRepresented(r, peers[i])
      ensures FirstPeer(r, peers[i], unresolved).Some? ==>
                Represents(r, peers[i], FirstPeer(r, peers[i], unresolved).value)
    {
      FirstPeerMeaning(r, peers[i], unresolved);
    }
    hide FirstPeer, FirstPeers, IsRepresented, Represents;
  }

  lemma CreatedForPeers(r': Remote, c: ClusterId, r: Remote, peers: seq<PeerId>, unresolved: set<PeerId>)
    requires FirstPeers(r, peers, unresolved).Success?
    requires IsCreated(r', c, FirstPeers(r, peers, unresolved).value)
    ensures IsClusterOf(r', c, r, peers)
  {
    ResolvedMeaning(r, peers, unresolved);
    hide FirstPeers, Represents;
    var netbirdPeers := FirstPeers(r, peers, unresolved).value;
    var group, policy :| && GroupIds(r', ClusterGroup(c)) == {group} && r'.groups[group].peers == netbirdPeers
                         && PolicyIds(r', ClusterPolicy(c)) == {policy} && r'.policies[policy].group == group;
    assert group in GroupIds(r', ClusterGroup(c)) && policy in PolicyIds(r', ClusterPolicy(c));
  }

  lemma SamePeerElsewhere(r: Remote, r': Remote, c: ClusterId, p: PeerId, unresolved: set<PeerId>)
    requires SameElsewhere(r, r', c)
    ensures FirstPeer(r, p, unresolved) == FirstPeer(r', p, unresolved)
  {
    assert GroupIds(r, PeerGroup(p)) == GroupIds(r', PeerGroup(p));
    LookUpMeaning(GroupIds(r, PeerGroup(p)), if p in unresolved then FailsBefore(OtherFailure) else NoFault);
  }

  lemma {:induction false} SamePeersElsewhere(r: Remote, r': Remote, c: ClusterId, peers: seq<PeerId>,
                                              unresolved: set<PeerId>)
    requires SameElsewhere(r, r', c)
    ensures FirstPeers(r, peers, unresolved) == FirstPeers(r', peers, unresolved)
  {
    if peers != [] {
      hide FirstPeer, SameElsewhere;
      SamePeersElsewhere(r, r', c, peers[..|peers| - 1], unresolved);
      SamePeerElsewhere(r, r', c, peers[|peers| - 1], unresolved);
    }
  }

  lemma NoGroupNoPolicy(r: Remote, c: ClusterId)
    ensures Tidy(r, c) && GroupIds(r, ClusterGroup(c)) == {} ==> PolicyIds(r, ClusterPolicy(c)) == {}
  {
  }

  lemma SameElsewhereTransitive(r: Remote, r': Remote, r'': Remote, c: ClusterId)
    requires SameElsewhere(r, r', c) && SameElsewhere(r', r'', c)
    ensures SameElsewhere(r, r'', c)
  {
  }

  lemma TidyElsewhere(r: Remote, r': Remote, c: ClusterId, other: ClusterId)
    requires SameElsewhere(r, r', c) && other != c
    ensures Tidy(r, other) <==> Tidy(r', other)
  {
    assert GroupIds(r, ClusterGroup(other)) == GroupIds(r', ClusterGroup(other));
    assert PolicyIds(r, ClusterPolicy(other)) == PolicyIds(r', ClusterPolicy(other));
  }

  /**
   Adding a group and a policy leaves a cluster tidy exactly if nothing with its name was there or nothing was added.
   */
  lemma AddedMeaning(d: Remote, c: ClusterId, peers: seq<NetbirdId>, f: CreateFaults)
    requires Fresh(d)
    ensures var (r', result) := Added(d, c, peers, f);
            && Fresh(r') && SameElsewhere(d, r', c) && GroupIds(d, ClusterGroup(c)) <= GroupIds(r', ClusterGroup(c))
            && (Tidy(d, c) ==> (Tidy(r', c) <==> GroupIds(d, ClusterGroup(c)) == {} || f.createGroup.FailsBefore?))
            && (result.Success? && GroupIds(d, ClusterGroup(c)) == {} == PolicyIds(d, ClusterPolicy(c)) ==>
                  IsCreated(r', c, peers))
  {
    AddedElsewhere(d, c, peers, f);
    AddedTidyIff(d, c, peers, f);
    AddedCompletely(d, c, peers, f);
    hide *;
  }

  lemma AddedElsewhere(d: Remote, c: ClusterId, peers: seq<NetbirdId>, f: CreateFaults)
    requires Fresh(d)
    ensures Fresh(Added(d, c, peers, f).0) && SameElsewhere(d, Added(d, c, peers, f).0, c)
    ensures GroupIds(d, ClusterGroup(c)) <= GroupIds(Added(d, c, peers, f).0, ClusterGroup(c))
  {
  }

  lemma AddedTidyIff(d: Remote, c: ClusterId, peers: seq<NetbirdId>, f: CreateFaults)
    requires Fresh(d)
    ensures Tidy(d, c) ==>
              (Tidy(Added(d, c, peers, f).0, c) <==> GroupIds(d, ClusterGroup(c)) == {} || f.createGroup.FailsBefore?)
  {
    var (r', result) := Added(d, c, peers, f);
    var name := ClusterGroup(c);
    if f.createGroup.FailsBefore? {
      assert r' == d;
    } else {
      assert GroupIds(r', name) == GroupIds(d, name) + {d.nextId};
      if GroupIds(d, name) != {} {
        var id :| id in GroupIds(d, name);
        assert id != d.nextId;
      }
    }
  }

  lemma AddedCompletely(d: Remote, c: ClusterId, peers: seq<NetbirdId>, f: CreateFaults)
    requires Fresh(d)
    ensures Added(d, c, peers, f).1.Success? && GroupIds(d, ClusterGroup(c)) == {} == PolicyIds(d, ClusterPolicy(c)) ==>
              IsCreated(Added(d, c, peers, f).0, c, peers)
  {
    var (r', result) := Added(d, c, peers, f);
    if result.Success? && GroupIds(d, ClusterGroup(c)) == {} == PolicyIds(d, ClusterPolicy(c)) {
      assert GroupIds(r', ClusterGroup(c)) == {d.nextId} && PolicyIds(r', ClusterPolicy(c)) == {d.nextId + 1};
      assert r'.groups[d.nextId].peers == peers && r'.policies[d.nextId + 1].group == d.nextId;
    }
  }

  /** Exactly one group of exactly these NetBird peers, and exactly one policy, which is for that group. */
  ghost predicate IsCreated(r: Remote, c: ClusterId, peers: seq<NetbirdId>) {
    exists group, policy ::
      && GroupIds(r, ClusterGroup(c)) == {group} && r.groups[group].peers == peers
      && PolicyIds(r, ClusterPolicy(c)) == {policy} && r.policies[policy].group == group
  }

  /**
   Creating keeps the cluster tidy except in one case: the deletion of what was there before reports "not found"
   although the group is present, the peers are resolved, and creating the group takes effect.
   */
  lemma CreateKeepsTidyIff(r: Remote, c: ClusterId, peers: seq<PeerId>, f: CreateFaults)
    requires Fresh(r) && Tidy(r, c)
    ensures var (r', result) := Created(r, c, peers, f);
            && Fresh(r') && SameElsewhere(r, r', c)
            && (Tidy(r', c) <==> !DoublesGroup(r, c, peers, f))
            && (result.Success? && Tidy(r', c) ==>
                  Resolvable(r, peers, f.unresolved) && IsClusterOf(r', c, r, peers))
  {
    hide Deleted, FirstPeers, NotFoundButPresent, IsCreated, Tidy, Fresh, SameElsewhere, GroupIds, PolicyIds, LookUp;
    hide Resolvable, IsClusterOf;
    ResolvedMeaning(r, peers, f.unresolved);
    var (d, result) := Deleted(r, c, f.deletion);
    DeletionMeaning(r, c, f.deletion);
    NotFoundButPresentIff(r, c, f.deletion);
    SamePeersElsewhere(r, d, c, peers, f.unresolved);
    if result != Failure(DeletionFailure) && FirstPeers(d, peers, f.unresolved).Success? {
      var netbirdPeers := FirstPeers(d, peers, f.unresolved).value;
      assert result.Failure? ==> result.error.NotFound?;
      NoGroupNoPolicy(d, c);
      AddedMeaning(d, c, netbirdPeers, f);
      SameElsewhereTransitive(r, d, Added(d, c, netbirdPeers, f).0, c);
      if Added(d, c, netbirdPeers, f).1.Success? && GroupIds(d, ClusterGroup(c)) == {} {
        CreatedForPeers(Added(d, c, netbirdPeers, f).0, c, r, peers, f.unresolved);
      }
    } else {
      assert Created(r, c, peers, f).0 == d;
    }
  }

  ghost predicate DoublesGroup(r: Remote, c: ClusterId, peers: seq<PeerId>, f: CreateFaults) {
    && NotFoundButPresent(r, c, f.deletion)
    && Resolvable(r, peers, f.unresolved)
    && !f.createGroup.FailsBefore?
  }

  /** A peer that is reported as not resolved is one of the given peers, and not represented or not looked up. */
  lemma UnresolvedPeer(r: Remote, c: ClusterId, peers: seq<PeerId>, f: CreateFaults)
    requires Fresh(r)
    ensures forall p :: Created(r, c, peers, f).1 == Failure(PeerResolutionFailure(p)) ==>
                          p in peers && (p in f.unresolved || !IsRepresented(r, p))
  {
    var (d, result) := Deleted(r, c, f.deletion);
    DeletionMeaning(r, c, f.deletion);
    SamePeersElsewhere(r, d, c, peers, f.unresolved);
    hide Deleted, SameElsewhere, Fresh, FirstPeers;
    if FirstPeers(r, peers, f.unresolved).Failure? {
      FirstFailure(r, peers, f.unresolved);
    }
  }

  lemma {:induction false} FirstFailure(r: Remote, peers: seq<PeerId>, unresolved: set<PeerId>)
    requires FirstPeers(r, peers, unresolved).Failure?
    ensures var p := FirstPeers(r, peers, unresolved).error;
            p in peers && (p in unresolved || !IsRepresented(r, p))
  {
    var front := peers[..|peers| - 1];
    if FirstPeers(r, front, unresolved).Failure? {
      FirstFailure(r, front, unresolved);
    } else {
      FirstPeerMeaning(r, peers[|peers| - 1], unresolved);
    }
  }

  // ---------------------------------------------------------------- runs

  /** Besides the two operations, anything may happen to the groups and policies that belong to no cluster. */
  datatype Step =
    | Create(c: ClusterId, peers: seq<PeerId>, f: CreateFaults)
    | Delete(c: ClusterId, deletion: DeleteFaults)
    | Elsewhere(r: Remote)

  predicate SameClusters(r: Remote, r': Remote) {
    && r.nextId <= r'.nextId
    && (forall id :: id in r.groups && r.groups[id].name.ClusterGroup? ==>
                       id in r'.groups && r'.groups[id].name == r.groups[id].name)
    && (forall id :: id in r'.groups && r'.groups[id].name.ClusterGroup? ==>
                       id in r.groups && r.groups[id].name == r'.groups[id].name)
    && (forall id :: id in r.policies && r.policies[id].name.ClusterPolicy? ==>
                       id in r'.policies && r'.policies[id] == r.policies[id])
    && (forall id :: id in r'.policies && r'.policies[id].name.ClusterPolicy? ==>
                       id in r.policies && r.policies[id] == r'.policies[id])
  }

  predicate Enabled(r: Remote, step: Step) {
    step.Elsewhere? ==> SameClusters(r, step.r) && Fresh(step.r)
  }

  ghost function Apply(r: Remote, step: Step): Remote {
    match step
    case Create(c, peers, f) => Created(r, c, peers, f).0
    case Delete(c, f) => Deleted(r, c, f).0
    case Elsewhere(r') => r'
  }

  ghost predicate AllTidy(r: Remote) {
    Fresh(r) && forall c :: Tidy(r, c)
  }

  ghost predicate Doubles(r: Remote, step: Step) {
    step.Create? && DoublesGroup(r, step.c, step.peers, step.f)
  }

  lemma StepKeepsTidyIff(r: Remote, step: Step)
    requires AllTidy(r) && Enabled(r, step)
    ensures AllTidy(Apply(r, step)) <==> !Doubles(r, step)
  {
    var r' := Apply(r, step);
    match step {
      case Create(c, peers, f) =>
        CreateKeepsTidyIff(r, c, peers, f);
        hide Tidy, Created, DoublesGroup, SameElsewhere;
        forall other | other != c
          ensures Tidy(r', other)
        {
          TidyElsewhere(r, r', c, other);
        }
      case Delete(c, f) =>
        DeletionMeaning(r, c, f);
        hide Tidy, Deleted, SameElsewhere;
        forall other | other != c
          ensures Tidy(r', other)
        {
          TidyElsewhere(r, r', c, other);
        }
      case Elsewhere(_) =>
        forall c
          ensures Tidy(r', c)
        {
          assert GroupIds(r, ClusterGroup(c)) == GroupIds(r', ClusterGroup(c));
          assert PolicyIds(r, ClusterPolicy(c)) == PolicyIds(r', ClusterPolicy(c));
          assert Tidy(r, c);
        }
    }
  }

  const NOTHING := Remote(map[], map[], 0)

  ghost function After(r: Remote, steps: seq<Step>): Remote {
    if steps == [] then r else Apply(After(r, steps[..|steps| - 1]), steps[|steps| - 1])
  }

  ghost predicate IsRun(r: Remote, steps: seq<Step>) {
    steps == [] ||
    (var front, last := steps[..|steps| - 1], steps[|steps| - 1];
     IsRun(r, front) && Enabled(After(r, front), last))
  }

  ghost predicate NeverDoubles(r: Remote, steps: seq<Step>) {
    steps == [] ||
    (var front, last := steps[..|steps| - 1], steps[|steps| - 1];
     NeverDoubles(r, front) && !Doubles(After(r, front), last))
  }

  /** However the calls of a run fare, every cluster stays tidy, unless a step doubles a group. */
  lemma {:induction false} TidyInEveryRun(steps: seq<Step>)
    requires IsRun(NOTHING, steps) && NeverDoubles(NOTHING, steps)
    ensures AllTidy(After(NOTHING, steps))
  {
    if steps != [] {
      TidyInEveryRun(steps[..|steps| - 1]);
      StepKeepsTidyIff(After(NOTHING, steps[..|steps| - 1]), steps[|steps| - 1]);
    }
  }

  /**
   A creation without faults succeeds exactly if nothing is ambiguous and every peer is found, and then completely.
   */
  lemma FaultFreeCreation(r: Remote, c: ClusterId, peers: seq<PeerId>)
    requires Fresh(r)
    ensures var (r', result) := Created(r, c, peers, NO_CREATE_FAULTS);
            && (result.Success? <==>
                  && |GroupIds(r, ClusterGroup(c))| <= 1 && |PolicyIds(r, ClusterPolicy(c))| <= 1
                  && Resolvable(r, peers, {}))
            && (result.Success? ==> IsClusterOf(r', c, r, peers))
  {
    var (d, result) := Deleted(r, c, NO_DELETE_FAULTS);
    DeletionMeaning(r, c, NO_DELETE_FAULTS);
    SamePeersElsewhere(r, d, c, peers, {});
    LookUpMeaning(PolicyIds(r, ClusterPolicy(c)), NoFault);
    var (r1, _) := DeletePolicyOf(r, c, NO_DELETE_FAULTS);
    assert GroupIds(r1, ClusterGroup(c)) == GroupIds(r, ClusterGroup(c));
    LookUpMeaning(GroupIds(r1, ClusterGroup(c)), NoFault);
    assert result.Failure? ==> result == Failure(DeletionFailure);
    assert result.Success? <==> |GroupIds(r, ClusterGroup(c))| <= 1 && |PolicyIds(r, ClusterPolicy(c))| <= 1;
    ResolvedMeaning(r, peers, {});
    hide LookUp, FirstPeers, Deleted, IsCreated, SameElsewhere, GroupIds, PolicyIds, Resolvable, IsClusterOf;
    if result.Success? && FirstPeers(d, peers, {}).Success? {
      AddedMeaning(d, c, FirstPeers(d, peers, {}).value, NO_CREATE_FAULTS);
      CreatedForPeers(Added(d, c, FirstPeers(d, peers, {}).value, NO_CREATE_FAULTS).0, c, r, peers, {});
    }
  }

  /** Whatever partial state a run left behind, the next creation without faults completes if all peers are found. */
  lemma ConvergesAfterEveryRun(steps: seq<Step>, c: ClusterId, peers: seq<PeerId>)
    requires IsRun(NOTHING, steps) && NeverDoubles(NOTHING, steps)
    ensures var (r', result) := Created(After(NOTHING, steps), c, peers, NO_CREATE_FAULTS);
            && (result.Success? <==> Resolvable(After(NOTHING, steps), peers, {}))
            && (result.Success? ==> IsClusterOf(r', c, After(NOTHING, steps), peers))
  {
    TidyInEveryRun(steps);
    var r := After(NOTHING, steps);
    FaultFreeCreation(r, c, peers);
    assert Tidy(r, c);
    AtMostOne(GroupIds(r, ClusterGroup(c)));
    AtMostOne(PolicyIds(r, ClusterPolicy(c)));
  }

  // ---------------------------------------------------------------- when a group is doubled

  /** The answer to a deletion request of the default client; it may be none, whether or not the request took effect. */
  datatype Exchange = Answered(status: nat, effective: bool) | Unanswered(effective: bool)

  /** The statuses that count as errors. */
  predicate IsErrorStatus(status: nat) {
    400 <= status < 600
  }

  function ParseResponseStatus(status: nat): Result<(), RequestError> {
    if IsErrorStatus(status) then Failure(IllegalRequest(status)) else Success(())
  }

  /** How a deletion by the default client fares. */
  function DefaultDeletion(exchange: Exchange): Fault {
    match exchange
    case Unanswered(effective) => if effective then FailsAfter(OtherFailure) else FailsBefore(OtherFailure)
    case Answered(status, effective) =>
      match ParseResponseStatus(status)
      case Success(_) => NoFault
      case Failure(error) => if effective then FailsAfter(error) else FailsBefore(error)
  }

  /**
   Whatever the service answers to the deletions of the default client, they are never "not found", and no group is
   doubled.
   */
  lemma DefaultClientNeverDoubles(r: Remote, c: ClusterId, peers: seq<PeerId>, f: CreateFaults, policy: Exchange,
                                  group: Exchange)
    requires f.deletion.deletePolicy == DefaultDeletion(policy) && f.deletion.deleteGroup == DefaultDeletion(group)
    ensures Deleted(r, c, f.deletion).1 != Failure(NotFound) && !DoublesGroup(r, c, peers, f)
  {
  }

  /** All creations of a run are made by the default client. */
  ghost predicate ByDefaultClient(steps: seq<Step>) {
    forall i :: 0 <= i < |steps| && steps[i].Create? ==>
                  exists policy, group :: && steps[i].f.deletion.deletePolicy == DefaultDeletion(policy)
                                          && steps[i].f.deletion.deleteGroup == DefaultDeletion(group)
  }

  lemma {:induction false} DefaultRunNeverDoubles(r: Remote, steps: seq<Step>)
    requires ByDefaultClient(steps)
    ensures NeverDoubles(r, steps)
  {
    if steps != [] {
      hide DoublesGroup;
      var front, last := steps[..|steps| - 1], steps[|steps| - 1];
      assert forall i :: 0 <= i < |front| ==> front[i] == steps[i];
      DefaultRunNeverDoubles(r, front);
      if last.Create? {
        var i := |steps| - 1;
        assert steps[i].Create?;
        var policy, group :| && steps[i].f.deletion.deletePolicy == DefaultDeletion(policy)
                             && steps[i].f.deletion.deleteGroup == DefaultDeletion(group);
        DefaultClientNeverDoubles(After(r, front), last.c, last.peers, last.f, policy, group);
      }
    }
  }

  /** With the default client every run, however its calls fare, keeps all clusters tidy and leaves them creatable. */
  lemma DefaultClientConverges(steps: seq<Step>, c: ClusterId, peers: seq<PeerId>)
    requires IsRun(NOTHING, steps) && ByDefaultClient(steps)
    ensures AllTidy(After(NOTHING, steps))
    ensures var (r', result) := Created(After(NOTHING, steps), c, peers, NO_CREATE_FAULTS);
            && (result.Success? <==> Resolvable(After(NOTHING, steps), peers, {}))
            && (result.Success? ==> IsClusterOf(r', c, After(NOTHING, steps), peers))
  {
    DefaultRunNeverDoubles(NOTHING, steps);
    TidyInEveryRun(steps);
    ConvergesAfterEveryRun(steps, c, peers);
  }

  /** A client that reports it as an illegal status does double the group of any existing cluster. */
  lemma IllegalStatusDoubles(r: Remote, c: ClusterId, peers: seq<PeerId>, netbirdPeers: seq<NetbirdId>)
    requires Fresh(r) && IsCreated(r, c, netbirdPeers) && Resolvable(r, peers, {})
    ensures var f := NO_CREATE_FAULTS.(deletion := NO_DELETE_FAULTS.(deletePolicy := FailsAfter(NOT_FOUND)));
            Tidy(r, c) && !Tidy(Created(r, c, peers, f).0, c)
  {
    var f := NO_CREATE_FAULTS.(deletion := NO_DELETE_FAULTS.(deletePolicy := FailsAfter(NOT_FOUND)));
    CreateKeepsTidyIff(r, c, peers, f);
  }

  /**
   From then on no step removes the ambiguity, and creating fails unless the policy is once more reported not found.
   */
  lemma AmbiguousForever(r: Remote, c: ClusterId, step: Step)
    requires Fresh(r) && Enabled(r, step) && |GroupIds(r, ClusterGroup(c))| > 1
    ensures Fresh(Apply(r, step)) && |GroupIds(Apply(r, step), ClusterGroup(c))| > 1
    ensures step.Create? && step.c == c
            && (step.f.deletion.deletePolicy == NoFault || step.f.deletion.deletePolicy.error != NOT_FOUND) ==>
              Created(r, c, step.peers, step.f).1.Failure?
  {
    var name := ClusterGroup(c);
    var r' := Apply(r, step);
    match step {
      case Create(x, peers, f) =>
        AmbiguousStaysDeleting(r, c, x, f.deletion);
        var (d, result) := Deleted(r, x, f.deletion);
        DeletionMeaning(r, x, f.deletion);
        if result != Failure(DeletionFailure) && FirstPeers(d, peers, f.unresolved).Success? {
          AddedMeaning(d, x, FirstPeers(d, peers, f.unresolved).value, f);
          assert GroupIds(d, name) <= GroupIds(r', name);
          Larger(GroupIds(d, name), GroupIds(r', name));
        }
      case Delete(x, f) =>
        AmbiguousStaysDeleting(r, c, x, f);
      case Elsewhere(_) =>
        assert GroupIds(r', name) == GroupIds(r, name);
    }
  }

  /** However many steps follow, the groups stay ambiguous, and every creation by the default client fails. */
  lemma {:induction false} AmbiguousInEveryRun(r: Remote, steps: seq<Step>, c: ClusterId, peers: seq<PeerId>,
                                               f: CreateFaults,
                                               policy: Exchange)
    requires Fresh(r) && |GroupIds(r, ClusterGroup(c))| > 1 && IsRun(r, steps)
    requires f.deletion.deletePolicy == DefaultDeletion(policy)
    ensures Fresh(After(r, steps)) && |GroupIds(After(r, steps), ClusterGroup(c))| > 1
    ensures Created(After(r, steps), c, peers, f).1.Failure?
  {
    hide Fresh, GroupIds, Apply, Created;
    if steps != [] {
      var front, last := steps[..|steps| - 1], steps[|steps| - 1];
      AmbiguousInEveryRun(r, front, c, peers, f, policy);
      AmbiguousForever(After(r, front), c, last);
    }
    AmbiguousForever(After(r, steps), c, Create(c, peers, f));
  }

  lemma AmbiguousStaysDeleting(r: Remote, c: ClusterId, x: ClusterId, f: DeleteFaults)
    requires Fresh(r) && |GroupIds(r, ClusterGroup(c))| > 1
    ensures GroupIds(Deleted(r, x, f).0, ClusterGroup(c)) == GroupIds(r, ClusterGroup(c))
    ensures x == c && (f.deletePolicy == NoFault || f.deletePolicy.error != NOT_FOUND) ==>
              Deleted(r, x, f).1 == Failure(DeletionFailure)
  {
    DeletionMeaning(r, x, f);
    assert GroupIds(DeletePolicyOf(r, x, f).0, ClusterGroup(c)) == GroupIds(r, ClusterGroup(c));
  }

  lemma Larger(smaller: set<NetbirdId>, larger: set<NetbirdId>)
    requires smaller <= larger
    ensures |smaller| <= |larger|
  {
    assert larger == smaller + (larger - smaller);
  }
}
