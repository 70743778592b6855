/** When a stored deployment is accepted, which clusters a peer coming online rolls out, and what undeploying undoes. */
module Rollout {
  import opened Peers
  import opened Topology
  import opened Wrappers
  import opened Deployment

  // ---------------------------------------------------------------- the deployability checks

  predicate IsOnline(t: Tables, p: PeerId) {
    p in t.connections && t.connections[p].Online?
  }

  /** The peers that own a device of the configured cluster `c`. */
  predicate IsPeerOf(t: Tables, p: PeerId, c: ClusterId) {
    c in t.configurations && p in t.peers && Meets(t.peers[p], t.configurations[c].devices)
  }

  /** The states of the cluster's peers, in terms of the tables. */
  lemma SelectedStates(t: Tables, order: seq<ClusterId>, c: ClusterId) returns (selected: map<PeerId, PeerState>)
    requires Exclusive(t) && IsListing(t, order) && c in t.configurations
    ensures ListClusterPeerStates(t, order, c) == Success(ClusterPeerStates.New(c, selected))
    ensures forall p :: p in selected <==> IsPeerOf(t, p, c)
    ensures forall p, other :: p in selected ==> (selected[p].member == Blocked(other) <==> Uses(t, other, p))
    ensures forall p :: p in selected ==> (selected[p].connection.Online? <==> IsOnline(t, p))
  {
    MemberStatesExact(t, order);
    var all := ListPeerStates(t, order).value;
    var peers := ListClusterPeers(t, c).value;
    selected := map p | p in all && p in peers :: all[p];
  }

  /** Both checks, in terms of the tables instead of the derived states. */
  lemma ChecksMeaning(t: Tables, order: seq<ClusterId>, c: ClusterId)
    requires Exclusive(t) && IsListing(t, order) && c in t.configurations
    ensures ListClusterPeerStates(t, order, c).Success?
    ensures var states := ListClusterPeerStates(t, order, c).value;
            && (states.blockedPeers.Keys == {} <==> forall p, other :: IsPeerOf(t, p, c) ==> !Uses(t, other, p))
            && (states.onlyBlockedBySelf <==> forall p, other :: IsPeerOf(t, p, c) && Uses(t, other, p) ==> other == c)
            && (forall p :: p in states.blockedByAnother <==>
                 IsPeerOf(t, p, c) && exists other :: other != c && Uses(t, other, p))
            && (forall p :: p in states.blockedPeers <==> IsPeerOf(t, p, c) && exists other :: Uses(t, other, p))
            && (forall p :: p in states.offlinePeers <==> IsPeerOf(t, p, c) && !IsOnline(t, p))
  {
    hide ListClusterPeerStates, IsPeerOf, IsOnline, IsListing;
    var selected := SelectedStates(t, order, c);
    var states := ClusterPeerStates.New(c, selected);
    forall p
      ensures p in states.blockedPeers <==> IsPeerOf(t, p, c) && exists other :: Uses(t, other, p)
      ensures p in states.blockedPeers ==> Uses(t, states.blockedPeers[p], p)
    {
      if p in selected && selected[p].member.Blocked? {
        assert Uses(t, selected[p].member.byCluster, p);
      }
    }
    hide Uses;
    if states.blockedPeers.Keys != {} {
      var p :| p in states.blockedPeers;
      assert IsPeerOf(t, p, c) && Uses(t, states.blockedPeers[p], p);
    }
  }

  lemma StoreOutcome(t: Tables, order: seq<ClusterId>, c: ClusterId, states: ClusterPeerStates)
    requires ListClusterPeerStates(t, order, c) == Success(states)
    ensures Outcome(t, StoreDeployment(c, order))
            == if states.blockedPeers.Keys == {} then Success(t.(deployments := t.deployments + {c}))
               else if states.onlyBlockedBySelf then Success(t)
               else Failure(IllegalPeerState(states.blockedByAnother.Keys))
  {
    hide ListClusterPeerStates;
  }

  predicate UsedByAnother(t: Tables, p: PeerId, c: ClusterId) {
    IsPeerOf(t, p, c) && exists other :: other in t.configurations && other != c && Uses(t, other, p)
  }

  /**
   Storing a deployment succeeds exactly if the cluster is configured and no other deployed cluster uses its peers;
   otherwise exactly those peers are reported.
   */
  lemma StoreDeploymentAcceptedIff(t: Tables, order: seq<ClusterId>, c: ClusterId)
    requires Exclusive(t) && IsListing(t, order)
    ensures Outcome(t, StoreDeployment(c, order)).Success? <==>
            c in t.configurations && forall p :: !UsedByAnother(t, p, c)
    ensures c in t.configurations && Outcome(t, StoreDeployment(c, order)).Failure? ==>
              && Outcome(t, StoreDeployment(c, order)).error.IllegalPeerState?
              && forall p :: p in Outcome(t, StoreDeployment(c, order)).error.invalidPeers <==> UsedByAnother(t, p, c)
  {
    if c in t.configurations {
      ChecksMeaning(t, order, c);
      var states := ListClusterPeerStates(t, order, c).value;
      StoreOutcome(t, order, c, states);
      hide ListClusterPeerStates, Outcome, IsPeerOf, IsListing, Exclusive;
      assert forall p :: p in states.blockedByAnother <==> UsedByAnother(t, p, c);
      if states.blockedPeers.Keys == {} || states.onlyBlockedBySelf {
        assert forall p :: !UsedByAnother(t, p, c);
      }
    }
  }

  /** A cluster whose deployment was accepted is deployed, also when it had been before. */
  lemma StoredIsDeployed(t: Tables, c: ClusterId, order: seq<ClusterId>)
    requires Exclusive(t) && IsListing(t, order) && Outcome(t, StoreDeployment(c, order)).Success?
    ensures IsDeployed(Apply(t, StoreDeployment(c, order)), c)
  {
    StoreDeploymentAcceptedIff(t, order, c);
    ChecksMeaning(t, order, c);
    var states := ListClusterPeerStates(t, order, c).value;
    StoreOutcome(t, order, c, states);
    if states.blockedPeers.Keys != {} {
      var p :| p in states.blockedPeers;
      assert Uses(t, c, p);
    }
  }

  /** Storing the deployment of a configured cluster whose peers no other deployed cluster uses leaves just it added. */
  lemma AcceptedStore(t: Tables, order: seq<ClusterId>, c: ClusterId)
    requires Exclusive(t) && IsListing(t, order) && c in t.configurations && forall p :: !UsedByAnother(t, p, c)
    ensures Apply(t, StoreDeployment(c, order)) == t.(deployments := t.deployments + {c})
  {
    StoreDeploymentAcceptedIff(t, order, c);
    StoredIsDeployed(t, c, order);
    hide ListClusterPeerStates, UsedByAnother, Exclusive, IsListing;
  }

  // ---------------------------------------------------------------- rolling out

  /** Deployed clusters with a device of the peer: the ones examined when it comes online. */
  function Candidates(t: Tables, p: PeerId): set<ClusterId>
    requires p in t.peers
  {
    set c | c in t.configurations && Meets(t.peers[p], t.configurations[c].devices) && c in t.deployments
  }

  /** The check that precedes every rollout lets it happen. */
  predicate RollsOut(t: Tables, order: seq<ClusterId>, c: ClusterId) {
    var states := ListClusterPeerStates(t, order, c);
    states.Success? && !states.value.CheckClusterDeployable().NotAllPeersAvailable?
  }

  /** A deployed cluster that has peers is rolled out exactly if all of them are online. */
  lemma DeployedRollsOutIff(t: Tables, order: seq<ClusterId>, c: ClusterId, p: PeerId)
    requires Exclusive(t) && IsListing(t, order) && Uses(t, c, p)
    ensures RollsOut(t, order, c) <==> forall q :: IsPeerOf(t, q, c) ==> IsOnline(t, q)
    ensures RollsOut(t, order, c) ==>
              ListClusterPeerStates(t, order, c).value.CheckClusterDeployable() == AlreadyDeployed
  {
    ChecksMeaning(t, order, c);
    var states := ListClusterPeerStates(t, order, c).value;
    assert IsPeerOf(t, p, c) && p in states.blockedPeers;
    forall q, other | IsPeerOf(t, q, c) && Uses(t, other, q)
      ensures other == c
    {
      assert Uses(t, c, q);
    }
    assert states.offlinePeers == {} <==> forall q :: q !in states.offlinePeers;
  }

  ghost predicate AllPeersOnline(t: Tables, c: ClusterId) {
    forall q :: IsPeerOf(t, q, c) ==> IsOnline(t, q)
  }

  /** The same without assuming that the cluster has a peer. */
  lemma RollsOutIffAllOnline(t: Tables, order: seq<ClusterId>, c: ClusterId)
    requires Exclusive(t) && IsListing(t, order) && IsDeployed(t, c)
    ensures RollsOut(t, order, c) <==> AllPeersOnline(t, c)
  {
    if p :| Uses(t, c, p) {
      DeployedRollsOutIff(t, order, c, p);
    } else {
      ChecksMeaning(t, order, c);
      var states := ListClusterPeerStates(t, order, c).value;
      assert forall p :: IsPeerOf(t, p, c) ==> Uses(t, c, p);
      assert states.offlinePeers == {} && states.blockedPeers.Keys == {};
    }
  }

  /**
   A cluster that is not deployed passes the check exactly if its peers are online and used by no deployed cluster.
   */
  lemma UndeployedRollsOutIff(t: Tables, order: seq<ClusterId>, c: ClusterId)
    requires Exclusive(t) && IsListing(t, order) && c in t.configurations && c !in t.deployments
    ensures RollsOut(t, order, c) <==>
            AllPeersOnline(t, c) && forall q, other :: IsPeerOf(t, q, c) ==> !Uses(t, other, q)
  {
    ChecksMeaning(t, order, c);
    var states := ListClusterPeerStates(t, order, c).value;
    assert forall q :: !Uses(t, c, q);
    hide ListClusterPeerStates, IsPeerOf, IsOnline, Uses, IsListing, Exclusive;
    assert states.offlinePeers == {} <==> AllPeersOnline(t, c) by {
      assert states.offlinePeers == {} <==> forall q :: q !in states.offlinePeers;
    }
  }

  /**
   A peer coming online makes at most one cluster a candidate, the deployed one with a device of it, and that cluster is
   rolled out exactly when all its peers are online.
   */
  lemma RolloutTrigger(t: Tables, order: seq<ClusterId>, p: PeerId)
    requires Exclusive(t) && IsListing(t, order) && p in t.peers
    ensures |Candidates(t, p)| <= 1
    ensures forall c :: c in Candidates(t, p) <==> Uses(t, c, p)
    ensures forall c :: c in Candidates(t, p) ==>
                          (RollsOut(t, order, c) <==> forall q :: IsPeerOf(t, q, c) ==> IsOnline(t, q))
  {
    var candidates := Candidates(t, p);
    assert forall c :: c in candidates <==> Uses(t, c, p);
    if c :| c in candidates {
      assert candidates == {c};
      DeployedRollsOutIff(t, order, c, p);
    } else {
      assert candidates == {};
    }
  }

  // ---------------------------------------------------------------- undeploying

  /** The member state the listing reports for a peer. */
  function MemberState(t: Tables, order: seq<ClusterId>, p: PeerId): Option<PeerMemberState> {
    var members := ListPeerMemberStates(t, order);
    if members.Success? && p in members.value then Some(members.value[p]) else None
  }

  /**
   A successful undeploy frees exactly the peers that were blocked by the cluster and changes no other member state.
   */
  lemma UndeployFreesExactly(t: Tables, order: seq<ClusterId>, order': seq<ClusterId>, c: ClusterId, external: bool,
                             p: PeerId)
    requires Exclusive(t) && IsListing(t, order)
    requires Outcome(t, DeleteDeployment(c, external)).Success?
    requires IsListing(Apply(t, DeleteDeployment(c, external)), order')
    ensures var t' := Apply(t, DeleteDeployment(c, external));
            && Exclusive(t')
            && MemberState(t', order', p)
               == if MemberState(t, order, p) == Some(Blocked(c)) then Some(Available) else MemberState(t, order, p)
  {
    var t' := Apply(t, DeleteDeployment(c, external));
    StepKeepsExclusiveIff(t, DeleteDeployment(c, external));
    MemberStatesExact(t, order);
    MemberStatesExact(t', order');
    forall other
      ensures Uses(t', other, p) <==> other != c && Uses(t, other, p)
    {
    }
    if p in t.peers {
      var before, after := MemberState(t, order, p).value, MemberState(t', order', p).value;
      assert forall other :: before == Blocked(other) <==> Uses(t, other, p);
      assert forall other :: after == Blocked(other) <==> Uses(t', other, p);
      if before.Blocked? {
        assert Uses(t, before.byCluster, p);
      }
      if after.Blocked? {
        assert Uses(t', after.byCluster, p);
      }
    }
  }

  /** Storing a fresh deployment blocks exactly the cluster's peers; deleting it again restores all member states. */
  lemma DeployThenUndeploy(t: Tables, order: seq<ClusterId>, middle: seq<ClusterId>, c: ClusterId, p: PeerId)
    requires Exclusive(t) && IsListing(t, order) && c !in t.deployments
    requires Outcome(t, StoreDeployment(c, order)).Success?
    requires IsListing(Apply(t, StoreDeployment(c, order)), middle)
    ensures var t' := Apply(t, StoreDeployment(c, order));
            && Apply(t', DeleteDeployment(c, true)) == t
            && (MemberState(t', middle, p) == Some(Blocked(c)) <==> IsPeerOf(t, p, c))
            && (!IsPeerOf(t, p, c) ==> MemberState(t', middle, p) == MemberState(t, order, p))
  {
    var t' := Apply(t, StoreDeployment(c, order));
    StoredIsDeployed(t, c, order);
    StoreAcceptsOnlyUnused(t, c, order);
    StoredDeploymentExclusive(t, c, order);
    assert t'.deployments - {c} == t.deployments;
    MemberStatesExact(t', middle);
    UndeployFreesExactly(t', middle, order, c, true, p);
    assert Uses(t', c, p) <==> IsPeerOf(t, p, c);
  }
}
