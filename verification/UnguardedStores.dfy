/** What the two stores without a guard can do to deployed clusters: reachable states in which every listing panics. */
module UnguardedStores {
  import opened Peers
  import opened Topology
  import opened Deployment
  import opened Rollout

  /**
   Whatever the listing order, two devices of one peer that are deployed by one cluster each, but not the same, panic.
   */
  lemma TwoUsersPanic(t: Tables, order: seq<ClusterId>, p: PeerId, i: nat, j: nat, a: ClusterId, b: ClusterId)
    requires IsListing(t, order) && p in t.peers && i < |t.peers[p].devices| && j < |t.peers[p].devices| && a != b
    requires forall c :: IsDeployed(t, c) && t.peers[p].devices[i].id in t.configurations[c].devices <==> c == a
    requires forall c :: IsDeployed(t, c) && t.peers[p].devices[j].id in t.configurations[c].devices <==> c == b
    ensures ListPeerMemberStates(t, order).Failure?
  {
    var devices, deployed := t.peers[p].devices, DeployedDevices(t, order);
    DeployedDevicesMeaning(t, order, devices[i].id);
    DeployedDevicesMeaning(t, order, devices[j].id);
    assert a in order && b in order;
    assert deployed[devices[i].id] == a && deployed[devices[j].id] == b;
    BlockedDevicesMeaning(devices, deployed, a);
    BlockedDevicesMeaning(devices, deployed, b);
    assert MemberStateOf(t.peers[p], deployed).Failure?;
  }

  ghost predicate GuardedReachable(t: Tables) {
    exists steps :: IsGuardedRun(EMPTY, steps) && After(EMPTY, steps) == t
  }

  lemma GuardedStep(t: Tables, step: Step) returns (t': Tables)
    requires GuardedReachable(t) && Enabled(t, step) && Guard(t, step)
    ensures t' == Apply(t, step) && GuardedReachable(t')
  {
    t' := Apply(t, step);
    var steps :| IsGuardedRun(EMPTY, steps) && After(EMPTY, steps) == t;
    assert (steps + [step])[..|steps|] == steps;
    assert After(EMPTY, steps + [step]) == t' && IsGuardedRun(EMPTY, steps + [step]);
  }

  const ONE := PeerDescriptor(1, [DeviceDescriptor(10, 0), DeviceDescriptor(11, 0)], [])
  const OTHER := PeerDescriptor(2, [DeviceDescriptor(20, 0)], [])
  const CLUSTER := ClusterConfiguration(1, {10})
  const OTHER_CLUSTER := ClusterConfiguration(2, {20})
  const TWO_DEPLOYED := Tables(map[5 := CLUSTER, 6 := OTHER_CLUSTER], {5, 6}, map[1 := ONE, 2 := OTHER], map[])

  lemma BothConfigured() returns (t: Tables)
    ensures t == TWO_DEPLOYED.(deployments := {}) && GuardedReachable(t)
  {
    assert IsGuardedRun(EMPTY, []) && After(EMPTY, []) == EMPTY;
    assert GuardedReachable(EMPTY);
    hide GuardedReachable;
    t := GuardedStep(EMPTY, StoreConfiguration(5, CLUSTER));
    t := GuardedStep(t, StoreConfiguration(6, OTHER_CLUSTER));
    t := GuardedStep(t, StorePeer(ONE, true, true));
    t := GuardedStep(t, StorePeer(OTHER, true, true));
  }

  lemma GuardedDeployment(t: Tables, order: seq<ClusterId>, c: ClusterId) returns (t': Tables)
    requires GuardedReachable(t) && IsListing(t, order) && c in t.configurations && forall p :: !UsedByAnother(t, p, c)
    ensures t' == t.(deployments := t.deployments + {c}) && GuardedReachable(t')
  {
    var steps :| IsGuardedRun(EMPTY, steps) && After(EMPTY, steps) == t;
    ExclusiveInEveryRun(steps);
    AcceptedStore(t, order, c);
    hide Apply;
    t' := GuardedStep(t, StoreDeployment(c, order));
  }

  lemma TwoDeployedReachable()
    ensures GuardedReachable(TWO_DEPLOYED)
  {
    hide GuardedReachable;
    var t := BothConfigured();
    assert forall p :: !UsedByAnother(t, p, 5);
    t := GuardedDeployment(t, [], 5);
    assert forall p :: Uses(t, 5, p) ==> p == 1;
    assert forall p :: IsPeerOf(t, p, 6) ==> p == 2;
    assert forall p :: !UsedByAnother(t, p, 6);
    t := GuardedDeployment(t, [5], 6);
    assert t == TWO_DEPLOYED;
  }

  /**
   The guard of storing peers matters: a peer that is stored again with devices of two deployed clusters makes every
   listing panic.
   */
  lemma UnguardedPeerStorePanics()
    ensures var step := StorePeer(PeerDescriptor(1, [DeviceDescriptor(10, 0), DeviceDescriptor(20, 0)], []), true,
              true);
            && GuardedReachable(TWO_DEPLOYED) && Enabled(TWO_DEPLOYED, step)
            && forall order :: IsListing(Apply(TWO_DEPLOYED, step), order) ==>
                                 ListPeerMemberStates(Apply(TWO_DEPLOYED, step), order).Failure?
  {
    TwoDeployedReachable();
    var t := Apply(TWO_DEPLOYED,
          StorePeer(PeerDescriptor(1, [DeviceDescriptor(10, 0), DeviceDescriptor(20, 0)], []), true, true));
    forall order | IsListing(t, order)
      ensures ListPeerMemberStates(t, order).Failure?
    {
      TwoUsersPanic(t, order, 1, 0, 1, 5, 6);
    }
  }

  /** So does that of storing configurations: a deployed cluster that is given another device of a used peer. */
  lemma UnguardedConfigurationStorePanics()
    ensures var step := StoreConfiguration(6, ClusterConfiguration(1, {11}));
            && GuardedReachable(TWO_DEPLOYED) && Enabled(TWO_DEPLOYED, step)
            && forall order :: IsListing(Apply(TWO_DEPLOYED, step), order) ==>
                                 ListPeerMemberStates(Apply(TWO_DEPLOYED, step), order).Failure?
  {
    TwoDeployedReachable();
    var t := Apply(TWO_DEPLOYED, StoreConfiguration(6, ClusterConfiguration(1, {11})));
    forall order | IsListing(t, order)
      ensures ListPeerMemberStates(t, order).Failure?
    {
      TwoUsersPanic(t, order, 1, 0, 1, 5, 6);
    }
  }
}
