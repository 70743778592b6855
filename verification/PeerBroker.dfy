/**
 The peer messaging broker with `open`, teardown and the handling of one descriptor removal as whole
 steps: which connection states and entries of connected peers remain after any history.
 */
module PeerBroker {
  import opened Peers
  import opened Wrappers

  /** `entries` holds the disconnect mark of each connected peer; `live` counts the session tasks of each peer. */
  datatype BrokerState = BrokerState(descriptors: set<PeerId>, connections: map<PeerId, PeerConnectionState>,
                         entries: map<PeerId, bool>, live: multiset<PeerId>, removals: seq<PeerId>)

  datatype OpenError = PeerNotFound | PeerAlreadyConnected | SendApplyPeerConfiguration

  datatype RemovePeerError = NoConnectionState | NoEntry

  predicate IsOnline(s: BrokerState, peer: PeerId) {
    peer in s.connections && s.connections[peer].Online?
  }

  // ---------------------------------------------------------------- specification

  function OpenResult(s: BrokerState, peer: PeerId, sent: bool): Result<(), OpenError> {
    if peer !in s.descriptors then Failure(PeerNotFound)
    else if IsOnline(s, peer) then Failure(PeerAlreadyConnected)
    else if !sent then Failure(SendApplyPeerConfiguration)
    else Success(())
  }

  /** Writes Online, then the entry; the session task is spawned only if the configuration was sent. */
  function Opened(s: BrokerState, peer: PeerId, host: Address, sent: bool): BrokerState {
    if peer !in s.descriptors || IsOnline(s, peer) then s
    else s.(connections := s.connections[peer := Online(host)], entries := s.entries[peer := false],
            live := if sent then s.live + multiset{peer} else s.live)
  }

  /** The end of a session task: without a connection state it stops before it leaves the entries. */
  function TornDown(s: BrokerState, peer: PeerId): BrokerState {
    if peer !in s.connections then s.(live := s.live - multiset{peer})
    else s.(connections := if peer in s.descriptors then s.connections[peer := Offline] else s.connections - {peer},
            entries := s.entries - {peer},
            live := s.live - multiset{peer})
  }

  function RemovalHandled(s: BrokerState, noticeDelivered: bool): BrokerState
    requires s.removals != []
  {
    var peer := s.removals[0];
    var rest := s.(removals := s.removals[1..]);
    if peer !in s.connections then rest
    else if s.connections[peer].Offline? then rest.(connections := s.connections - {peer})
    else if noticeDelivered && peer in s.entries then rest.(entries := s.entries[peer := true])
    else rest
  }

  datatype Step =
    | StoreDescriptor(peer: PeerId)
    | DeleteDescriptor(peer: PeerId)
    | Open(peer: PeerId, host: Address, sent: bool)
    | Teardown(peer: PeerId)
    | HandleRemoval(noticeDelivered: bool)

  predicate Enabled(s: BrokerState, step: Step) {
    match step
    case DeleteDescriptor(peer) => peer in s.descriptors
    case Teardown(peer) => peer in s.live
    case HandleRemoval(_) => s.removals != []
    case _ => true
  }

  function Apply(s: BrokerState, step: Step): BrokerState
    requires Enabled(s, step)
  {
    match step
    case StoreDescriptor(peer) => s.(descriptors := s.descriptors + {peer})
    case DeleteDescriptor(peer) => s.(descriptors := s.descriptors - {peer}, removals := s.removals + [peer])
    case Open(peer, host, sent) => Opened(s, peer, host, sent)
    case Teardown(peer) => TornDown(s, peer)
    case HandleRemoval(noticeDelivered) => RemovalHandled(s, noticeDelivered)
  }

  const INITIAL := BrokerState({}, map[], map[], multiset{}, [])

  function After(s: BrokerState, steps: seq<Step>): Option<BrokerState> {
    if steps == [] then Some(s)
    else
      match After(s, steps[..|steps| - 1])
      case None => None
      case Some(t) => if Enabled(t, steps[|steps| - 1]) then Some(Apply(t, steps[|steps| - 1])) else None
  }

  // ---------------------------------------------------------------- the broker

  class PeerMessagingBroker {
    var descriptors: set<PeerId>
    var connections: map<PeerId, PeerConnectionState>
    var peers: map<PeerId, bool>
    ghost var live: multiset<PeerId>
    var removals: seq<PeerId>

    ghost function State(): BrokerState
      reads this
    {
      BrokerState(descriptors, connections, peers, live, removals)
    }

    method Open(peer: PeerId, host: Address, sent: bool) returns (r: Result<(), OpenError>)
      modifies `connections, `peers, `live
      ensures r == OpenResult(old(State()), peer, sent)
      ensures State() == Opened(old(State()), peer, host, sent)
      ensures r.Success? <==> peer in descriptors && !IsOnline(old(State()), peer) && sent
      ensures peer in descriptors && !IsOnline(old(State()), peer) ==>
                && connections == old(connections)[peer := Online(host)] && peers == old(peers)[peer := false]
                && live == if sent then old(live) + multiset{peer} else old(live)
      ensures peer !in descriptors || IsOnline(old(State()), peer) ==>
                && connections == old(connections) && peers == old(peers) && live == old(live)
                && r.error == if peer in descriptors then PeerAlreadyConnected else PeerNotFound
    {
      if peer !in descriptors {
        return Failure(PeerNotFound);
      }
      var maybePeerState := if peer in connections then Some(connections[peer]) else None;
      if maybePeerState.Some? && maybePeerState.value.Online? {
        return Failure(PeerAlreadyConnected);
      }
      connections := connections[peer := Online(host)];
      peers := peers[peer := false];
      if !sent {
        return Failure(SendApplyPeerConfiguration);
      }
      live := live + multiset{peer};
      r := Success(());
    }

    method RemovePeerImpl(peer: PeerId) returns (r: Result<(), RemovePeerError>)
      requires peer in live
      modifies `connections, `peers, `live
      ensures State() == TornDown(old(State()), peer)
      ensures live == old(live) - multiset{peer}
      ensures peer in old(connections) && peer in descriptors ==>
                connections == old(connections)[peer := Offline] && peers == old(peers) - {peer}
      ensures peer in old(connections) && peer !in descriptors ==>
                connections == old(connections) - {peer} && peers == old(peers) - {peer}
      ensures peer !in old(connections) ==> connections == old(connections) && peers == old(peers)
      ensures r == if peer !in old(connections) then Failure(NoConnectionState)
                   else if peer !in old(peers) then Failure(NoEntry)
                   else Success(())
    {
      live := live - multiset{peer};
      if peer !in connections {
        return Failure(NoConnectionState);
      }
      if peer !in descriptors {
        connections := connections - {peer};
      } else {
        connections := connections[peer := Offline];
      }
      r := if peer in peers then Success(()) else Failure(NoEntry);
      peers := peers - {peer};
    }

    method Disconnect(peer: PeerId, noticeDelivered: bool) returns (notified: bool)
      modifies `peers
      ensures notified == (noticeDelivered && peer in old(peers))
      ensures peers == if notified then old(peers)[peer := true] else old(peers)
    {
      notified := peer in peers && noticeDelivered;
      if notified {
        peers := peers[peer := true];
      }
    }

    /** One round of the loop that reacts to removed descriptors. */
    method DisconnectPeerWhenRemoved(noticeDelivered: bool)
      requires removals != []
      modifies this
      ensures State() == RemovalHandled(old(State()), noticeDelivered)
      ensures removals == old(removals)[1..] && descriptors == old(descriptors) && live == old(live)
      ensures var peer := old(removals)[0];
              var offline := peer in old(connections) && old(connections)[peer].Offline?;
              && connections == (if offline then old(connections) - {peer} else old(connections))
              && peers == if IsOnline(old(State()), peer) && noticeDelivered && peer in old(peers)
                          then old(peers)[peer := true] else old(peers)
    {
      var peer := removals[0];
      removals := removals[1..];
      if peer in connections {
        match connections[peer] {
          case Offline => connections := connections - {peer};
          case Online(_) => var _ := Disconnect(peer, noticeDelivered);
        }
      }
    }
  }

  // ---------------------------------------------------------------- opening and closing

  /** What the source checks before it writes anything. */
  predicate Accepts(s: BrokerState, peer: PeerId) {
    peer in s.descriptors && !(peer in s.connections && s.connections[peer].Online?)
  }

  /**
   An accepted open records the peer Online at this host, enters it unmarked, and starts one session if the
   configuration could be sent; a refused one changes nothing, and no other peer is ever touched.
   */
  lemma OpenMeaning(s: BrokerState, peer: PeerId, host: Address, sent: bool)
    ensures var s', r := Opened(s, peer, host, sent), OpenResult(s, peer, sent);
            && (r.Success? <==> Accepts(s, peer) && sent)
            && (!Accepts(s, peer) ==>
                  && s' == s
                  && r == Failure(if peer in s.descriptors then PeerAlreadyConnected else PeerNotFound))
            && (Accepts(s, peer) ==>
                  && peer in s'.connections && s'.connections[peer] == Online(host)
                  && peer in s'.entries && !s'.entries[peer]
                  && s'.live[peer] == s.live[peer] + (if sent then 1 else 0)
                  && (!sent ==> r == Failure(SendApplyPeerConfiguration)))
            && SameForOthers(s, s', peer)
  {
  }

  ghost predicate SameForOthers(s: BrokerState, s': BrokerState, peer: PeerId) {
    && s'.descriptors == s.descriptors && s'.removals == s.removals
    && (forall other :: other != peer ==> s'.live[other] == s.live[other])
    && (forall other :: other != peer ==> (other in s'.connections <==> other in s.connections))
    && (forall other :: other != peer && other in s.connections ==> s'.connections[other] == s.connections[other])
    && (forall other :: other != peer ==> (other in s'.entries <==> other in s.entries))
    && (forall other :: other != peer && other in s.entries ==> s'.entries[other] == s.entries[other])
  }

  /** Teardown takes one session and the entry away, and leaves Offline exactly for a peer that is still described. */
  lemma TeardownMeaning(s: BrokerState, peer: PeerId)
    requires peer in s.live
    ensures var s' := TornDown(s, peer);
            && s'.live[peer] == s.live[peer] - 1
            && (peer in s.connections ==> peer !in s'.entries)
            && (peer in s'.connections <==> peer in s.connections && peer in s.descriptors)
            && (peer in s'.connections ==> s'.connections[peer] == Offline)
            && SameForOthers(s, s', peer)
  {
  }

  /** How many opens of the peer a run has accepted and sent the configuration to. */
  ghost function Sessions(steps: seq<Step>, peer: PeerId): nat {
    if steps == [] then 0
    else
      var front, last := steps[..|steps| - 1], steps[|steps| - 1];
      var t := After(INITIAL, front);
      Sessions(front, peer)
      + if t.Some? && last.Open? && last.peer == peer && Accepts(t.value, peer) && last.sent then 1 else 0
  }

  function Teardowns(steps: seq<Step>, peer: PeerId): nat {
    if steps == [] then 0
    else Teardowns(steps[..|steps| - 1], peer) + if steps[|steps| - 1] == Teardown(peer) then 1 else 0
  }

  /** The host of the last open of the peer that was accepted. */
  ghost function LastHost(steps: seq<Step>, peer: PeerId): Option<Address> {
    if steps == [] then None
    else
      var front, last := steps[..|steps| - 1], steps[|steps| - 1];
      var t := After(INITIAL, front);
      if t.Some? && last.Open? && last.peer == peer && Accepts(t.value, peer) then Some(last.host)
      else LastHost(front, peer)
  }

  /** The live sessions of a peer are its completed opens without its teardowns. */
  lemma {:induction false} SessionsInEveryRun(steps: seq<Step>, peer: PeerId)
    requires After(INITIAL, steps).Some?
    ensures After(INITIAL, steps).value.live[peer] + Teardowns(steps, peer) == Sessions(steps, peer)
  {
    if steps != [] {
      var front, last := steps[..|steps| - 1], steps[|steps| - 1];
      SessionsInEveryRun(front, peer);
      SessionsAfterStep(After(INITIAL, front).value, last, peer);
      hide Apply, Accepts;
    }
  }

  lemma SessionsAfterStep(s: BrokerState, step: Step, peer: PeerId)
    requires Enabled(s, step)
    ensures Apply(s, step).live[peer] + (if step == Teardown(peer) then 1 else 0)
            == s.live[peer] + if step.Open? && step.peer == peer && Accepts(s, peer) && step.sent then 1 else 0
  {
  }

  /** A peer recorded Online is recorded with the host of its last accepted open. */
  lemma {:induction false} HostInEveryRun(steps: seq<Step>, peer: PeerId)
    requires After(INITIAL, steps).Some? && IsOnline(After(INITIAL, steps).value, peer)
    ensures LastHost(steps, peer) == Some(After(INITIAL, steps).value.connections[peer].remoteHost)
  {
    if steps != [] {
      var front, last := steps[..|steps| - 1], steps[|steps| - 1];
      HostAfterStep(After(INITIAL, front).value, last, peer);
      if !(last.Open? && last.peer == peer && Accepts(After(INITIAL, front).value, peer)) {
        HostInEveryRun(front, peer);
      }
      hide Apply, Accepts;
    }
  }

  lemma HostAfterStep(s: BrokerState, step: Step, peer: PeerId)
    requires Enabled(s, step) && IsOnline(Apply(s, step), peer)
    ensures if step.Open? && step.peer == peer && Accepts(s, peer)
            then Apply(s, step).connections[peer] == Online(step.host)
            else IsOnline(s, peer) && Apply(s, step).connections[peer] == s.connections[peer]
  {
  }

  // ---------------------------------------------------------------- properties

  /** The keys of the map are the Online peers, and only an Online peer has a session task, at most one. */
  predicate KeysAt(s: BrokerState, peer: PeerId) {
    && (IsOnline(s, peer) <==> peer in s.entries)
    && s.live[peer] <= (if IsOnline(s, peer) then 1 else 0)
  }

  lemma StepKeepsKeys(s: BrokerState, step: Step, peer: PeerId)
    requires KeysAt(s, peer) && Enabled(s, step)
    ensures KeysAt(Apply(s, step), peer)
  {
  }

  /** In every run whatsoever, also with opens that fail half-way. */
  lemma {:induction false} KeysAreOnlinePeersInEveryRun(steps: seq<Step>, peer: PeerId)
    requires After(INITIAL, steps).Some?
    ensures KeysAt(After(INITIAL, steps).value, peer)
  {
    if steps != [] {
      hide Apply, Enabled, KeysAt;
      var front, last := steps[..|steps| - 1], steps[|steps| - 1];
      KeysAreOnlinePeersInEveryRun(front, peer);
      StepKeepsKeys(After(INITIAL, front).value, last, peer);
    }
  }

  /**
   The peer is served: Online it has a session task; a state without descriptor has one, or a removal to be handled.
   */
  predicate ServedAt(s: BrokerState, peer: PeerId) {
    && (IsOnline(s, peer) ==> peer in s.live)
    && (peer in s.connections && peer !in s.descriptors ==> peer in s.live || peer in s.removals)
  }

  /** An `open` that writes the connection state of the peer but fails to send the initial configuration. */
  predicate HalfOpened(s: BrokerState, step: Step, peer: PeerId) {
    step.Open? && step.peer == peer && peer in s.descriptors && !IsOnline(s, peer) && !step.sent
  }

  /** A peer stays served exactly unless an `open` of that very peer fails half-way. */
  lemma StepKeepsServedIff(s: BrokerState, step: Step, peer: PeerId)
    requires KeysAt(s, peer) && ServedAt(s, peer) && Enabled(s, step)
    ensures ServedAt(Apply(s, step), peer) <==> !HalfOpened(s, step, peer)
  {
    if step.HandleRemoval? {
      assert peer in s.removals <==> peer == s.removals[0] || peer in s.removals[1..];
    }
  }

  predicate NeverHalfOpened(s: BrokerState, steps: seq<Step>, peer: PeerId) {
    steps == [] ||
    (&& NeverHalfOpened(s, steps[..|steps| - 1], peer)
     && var t := After(s, steps[..|steps| - 1]); t.Some? ==> !HalfOpened(t.value, steps[|steps| - 1], peer))
  }

  lemma {:induction false} ServedInEveryRun(s: BrokerState, steps: seq<Step>, peer: PeerId)
    requires KeysAt(s, peer) && ServedAt(s, peer) && After(s, steps).Some? && NeverHalfOpened(s, steps, peer)
    ensures KeysAt(After(s, steps).value, peer) && ServedAt(After(s, steps).value, peer)
  {
    if steps != [] {
      hide Apply, Enabled, KeysAt, ServedAt, HalfOpened;
      var front, last := steps[..|steps| - 1], steps[|steps| - 1];
      ServedInEveryRun(s, front, peer);
      StepKeepsKeys(After(s, front).value, last, peer);
      StepKeepsServedIff(After(s, front).value, last, peer);
    }
  }

  predicate Draining(steps: seq<Step>) {
    forall i :: 0 <= i < |steps| ==> steps[i].Teardown? || steps[i].HandleRemoval?
  }

  function Outstanding(s: BrokerState): nat {
    |s.removals| + |s.live|
  }

  lemma DrainingStep(s: BrokerState, step: Step)
    requires Enabled(s, step) && (step.Teardown? || step.HandleRemoval?)
    ensures Outstanding(Apply(s, step)) == Outstanding(s) - 1 && Apply(s, step).descriptors == s.descriptors
  {
  }

  /** Every teardown and every handled removal brings the end of draining one step nearer. */
  lemma {:induction false} DrainingProgress(s: BrokerState, steps: seq<Step>)
    requires After(s, steps).Some? && Draining(steps)
    ensures Outstanding(After(s, steps).value) == Outstanding(s) - |steps|
    ensures After(s, steps).value.descriptors == s.descriptors
  {
    if steps != [] {
      hide Apply, Enabled, Outstanding;
      var front, last := steps[..|steps| - 1], steps[|steps| - 1];
      assert forall i :: 0 <= i < |front| ==> front[i] == steps[i];
      DrainingProgress(s, front);
      DrainingStep(After(s, front).value, last);
    }
  }

  /**
   No orphaned connection state: whatever else happened, once as many teardowns and removals have been handled as were
   outstanding, a peer that never had a half-opened connection is not connected, and its state, if any, has a
   descriptor.
   */
  lemma NoOrphanAfterDraining(history: seq<Step>, drain: seq<Step>, peer: PeerId)
    requires After(INITIAL, history).Some? && NeverHalfOpened(INITIAL, history, peer)
    requires After(After(INITIAL, history).value, drain).Some? && Draining(drain)
    requires |drain| == Outstanding(After(INITIAL, history).value)
    ensures var s := After(After(INITIAL, history).value, drain).value;
            && (peer in s.connections ==> peer in s.descriptors)
            && peer !in s.entries && !IsOnline(s, peer)
  {
    var s := After(INITIAL, history).value;
    ServedInEveryRun(INITIAL, history, peer);
    DrainingNeverOpens(s, drain, peer);
    ServedInEveryRun(s, drain, peer);
    DrainingProgress(s, drain);
    var end := After(s, drain).value;
    assert |end.removals| == 0 && |end.live| == 0;
    assert end.live[peer] == 0;
  }

  lemma {:induction false} DrainingNeverOpens(s: BrokerState, steps: seq<Step>, peer: PeerId)
    requires Draining(steps)
    ensures NeverHalfOpened(s, steps, peer)
  {
    if steps != [] {
      var front := steps[..|steps| - 1];
      assert forall i :: 0 <= i < |front| ==> front[i] == steps[i];
      DrainingNeverOpens(s, front, peer);
      assert steps[|steps| - 1].Teardown? || steps[|steps| - 1].HandleRemoval?;
    }
  }

  ghost predicate Reachable(s: BrokerState) {
    exists steps :: After(INITIAL, steps) == Some(s)
  }

  lemma Go(s: BrokerState, step: Step) returns (s': BrokerState)
    requires Reachable(s) && Enabled(s, step)
    ensures s' == Apply(s, step) && Reachable(s')
  {
    s' := Apply(s, step);
    var steps :| After(INITIAL, steps) == Some(s);
    assert (steps + [step])[..|steps|] == steps;
    assert After(INITIAL, steps + [step]) == Some(s');
  }

  /** A half-opened connection outlives its descriptor: nothing outstanding, yet the peer is still recorded Online. */
  lemma HalfOpenedLeavesOrphan(peer: PeerId, host: Address, noticeDelivered: bool) returns (s: BrokerState)
    ensures Reachable(s)
    ensures Outstanding(s) == 0 && IsOnline(s, peer) && peer !in s.descriptors
  {
    assert After(INITIAL, []) == Some(INITIAL);
    s := Go(INITIAL, StoreDescriptor(peer));
    s := Go(s, Open(peer, host, false));
    s := Go(s, DeleteDescriptor(peer));
    s := Go(s, HandleRemoval(noticeDelivered));
  }
}
