/** Waiting for peers to come online: a view of connection states kept up to date from the event log. */
module OnlineObserver {
  import opened Peers
  import opened ResourceEvents

  type ConnectionEvent = Event<PeerId, PeerConnectionState>
  type Connections = map<PeerId, PeerConnectionState>

  // ---------------------------------------------------------------- specification

  /** A peer without a stored state counts as offline. */
  function StatusIn(table: Connections, peer: PeerId): PeerConnectionState {
    if peer in table then table[peer] else Offline
  }

  function Selected(peerIds: set<PeerId>, table: Connections): Connections {
    map peer | peer in peerIds :: StatusIn(table, peer)
  }

  function Updated(view: Connections, event: ConnectionEvent): Connections {
    if event.id !in view then view
    else view[event.id := if event.Inserted? then event.value else Offline]
  }

  function Consumed(view: Connections, events: seq<ConnectionEvent>): Connections {
    if events == [] then view
    else Updated(Consumed(view, events[..|events| - 1]), events[|events| - 1])
  }

  datatype ResponseStatus = Success | Pending | Failure

  // ---------------------------------------------------------------- the algorithm

  class ObservePeersOnline {
    var peers: Connections
    var cursor: nat

    /**
     `listed` is the table at the time of listing, `subscribedAt` the length of the log at the time of subscribing.
     */
    constructor (peerIds: set<PeerId>, listed: Connections, subscribedAt: nat)
      ensures peers == Selected(peerIds, listed) && cursor == subscribedAt
    {
      peers := map peer | peer in peerIds :: if peer in listed then listed[peer] else Offline;
      cursor := subscribedAt;
    }

    /** One attempt to receive; `sent` is the event log of the channel at that moment. */
    method Observe(sent: seq<ConnectionEvent>, capacity: nat)
      requires cursor <= |sent|
      modifies this
      ensures cursor == TryReceive(sent, old(cursor), capacity).1 <= |sent|
      ensures peers == if TryReceive(sent, old(cursor), capacity).0.Received?
                       then Consumed(old(peers), sent[old(cursor)..cursor]) else old(peers)
      ensures |sent| - old(cursor) <= capacity ==> peers == Consumed(old(peers), sent[old(cursor)..cursor])
    {
      ghost var before, start := peers, cursor;
      var received, next := TryReceive(sent, cursor, capacity).0, TryReceive(sent, cursor, capacity).1;
      cursor := next;
      match received {
        case Received(event) =>
          assert sent[start..cursor] == [event] && [event][..0] == [];
          match event {
            case Inserted(id, Online(_)) => PeerOnline(id, event.value);
            case Inserted(id, Offline) => PeerOffline(id);
            case Removed(id, _) => PeerOffline(id);
          }
          assert Consumed(before, [event]) == Updated(Consumed(before, [event][..0]), event);
        case Lagged(_) =>
        case Empty =>
      }
    }

    method PeerOnline(peer: PeerId, connection: PeerConnectionState)
      modifies this`peers
      ensures peers == if connection.Online? && peer in old(peers) then old(peers)[peer := connection] else old(peers)
    {
      if connection.Online? && peer in peers {
        peers := peers[peer := connection];
      }
    }

    method PeerOffline(peer: PeerId)
      modifies this`peers
      ensures peers == if peer in old(peers) then old(peers)[peer := Offline] else old(peers)
    {
      if peer in peers {
        peers := peers[peer := Offline];
      }
    }

    function OfflinePeers(): set<PeerId>
      reads this
    {
      set peer | peer in peers && peers[peer].Offline?
    }

    function DetermineResponse(withinObservationTime: bool): (status: ResponseStatus)
      reads this
      ensures status.Success? <==> forall peer :: peer in peers ==> peers[peer].Online?
      ensures status.Pending? <==> withinObservationTime && exists peer :: peer in peers && peers[peer].Offline?
      ensures status.Failure? <==> !withinObservationTime && exists peer :: peer in peers && peers[peer].Offline?
    {
      if OfflinePeers() == {} then
        assert forall peer :: peer in peers ==> peer !in OfflinePeers();
        Success
      else if withinObservationTime then Pending
      else Failure
    }
  }

  /** Receiving until the channel is drained or has lost events. */
  method ObserveAll(observer: ObservePeersOnline, sent: seq<ConnectionEvent>, capacity: nat)
    requires observer.cursor <= |sent| && |sent| - observer.cursor <= capacity
    modifies observer
    ensures observer.cursor == |sent|
    ensures observer.peers == Consumed(old(observer.peers), sent[old(observer.cursor)..])
  {
    while observer.cursor < |sent|
      invariant old(observer.cursor) <= observer.cursor <= |sent|
      invariant observer.peers == Consumed(old(observer.peers), sent[old(observer.cursor)..observer.cursor])
    {
      ghost var start := observer.cursor;
      observer.Observe(sent, capacity);
      ConsumedConcat(old(observer.peers), sent[old(observer.cursor)..start], sent[start..observer.cursor]);
      assert sent[old(observer.cursor)..start] + sent[start..observer.cursor]
               == sent[old(observer.cursor)..observer.cursor];
    }
    assert sent[old(observer.cursor)..|sent|] == sent[old(observer.cursor)..];
  }

  // ---------------------------------------------------------------- properties

  lemma {:induction false} ConsumedConcat(view: Connections, a: seq<ConnectionEvent>, b: seq<ConnectionEvent>)
    ensures Consumed(view, a + b) == Consumed(Consumed(view, a), b)
    decreases |b|
  {
    if b == [] {
      assert a + b == a;
    } else {
      ConsumedConcat(view, a, b[..|b| - 1]);
      assert (a + b)[..|a + b| - 1] == a + b[..|b| - 1];
    }
  }

  predicate Touched(events: seq<ConnectionEvent>, peer: PeerId) {
    exists i :: 0 <= i < |events| && events[i].id == peer
  }

  /** Consuming events settles a touched peer whatever the view was, and leaves an untouched one alone. */
  lemma {:induction false} ConsumingTracksTable(view: Connections, table: Connections, events: seq<ConnectionEvent>,
                                                peer: PeerId)
    requires peer in view
    ensures Consumed(view, events).Keys == view.Keys
    ensures Touched(events, peer) ==> Consumed(view, events)[peer] == StatusIn(Replay(table, events), peer)
    ensures !Touched(events, peer) ==> Consumed(view, events)[peer] == view[peer]
    ensures !Touched(events, peer) ==> StatusIn(Replay(table, events), peer) == StatusIn(table, peer)
  {
    if events != [] {
      var n := |events| - 1;
      ConsumingTracksTable(view, table, events[..n], peer);
      assert Touched(events, peer) <==> Touched(events[..n], peer) || events[n].id == peer by {
        if events[n].id == peer {
          assert Touched(events, peer);
        } else if Touched(events[..n], peer) {
          var i :| 0 <= i < n && events[..n][i].id == peer;
          assert events[i].id == peer;
        }
      }
    }
  }

  /**
   A view that was right at log position `a` and goes on receiving at position `b`, because events were sent between
   listing and subscribing or were lost to a full channel: at position `c` it is right about a peer exactly if the peer
   had an event since, or what was missed did not change its state.
   */
  lemma ViewRightIff(origin: Connections, log: seq<ConnectionEvent>, peerIds: set<PeerId>, a: nat, b: nat, c: nat,
                     peer: PeerId)
    requires a <= b <= c <= |log| && peer in peerIds
    ensures var view := Consumed(Selected(peerIds, Replay(origin, log[..a])), log[b..c]);
            && view.Keys == peerIds
            && (view[peer] == StatusIn(Replay(origin, log[..c]), peer) <==>
                || Touched(log[b..c], peer)
                || StatusIn(Replay(origin, log[..a]), peer) == StatusIn(Replay(origin, log[..b]), peer))
  {
    var listed := Selected(peerIds, Replay(origin, log[..a]));
    ConsumingTracksTable(listed, Replay(origin, log[..b]), log[b..c], peer);
    ReplayConcat(origin, log[..b], log[b..c]);
    assert log[..b] + log[b..c] == log[..c];
  }

  /**
   Without a gap the view is the table at every position, and success is answered exactly when all peers are online.
   */
  lemma ViewFollowsTable(origin: Connections, log: seq<ConnectionEvent>, peerIds: set<PeerId>, a: nat, c: nat)
    requires a <= c <= |log|
    ensures Consumed(Selected(peerIds, Replay(origin, log[..a])), log[a..c])
              == Selected(peerIds, Replay(origin, log[..c]))
    ensures (forall peer :: peer in peerIds ==>
              Consumed(Selected(peerIds, Replay(origin, log[..a])), log[a..c])[peer].Online?)
            <==> forall peer :: peer in peerIds ==>
                                  peer in Replay(origin, log[..c]) && Replay(origin, log[..c])[peer].Online?
  {
    var view := Consumed(Selected(peerIds, Replay(origin, log[..a])), log[a..c]);
    forall peer | peer in peerIds
      ensures view.Keys == peerIds && view[peer] == StatusIn(Replay(origin, log[..c]), peer)
    {
      ViewRightIff(origin, log, peerIds, a, a, c, peer);
    }
    if peerIds == {} {
      ConsumingNothing(log[a..c]);
      assert Selected(peerIds, Replay(origin, log[..a])) == map[] == Selected(peerIds, Replay(origin, log[..c]));
    }
  }

  /** The view is the stored table of the peers, and all of them are online in the one exactly if in the other. */
  ghost predicate Sees(peerIds: set<PeerId>, view: Connections, table: Connections) {
    && view == Selected(peerIds, table)
    && ((forall peer :: peer in view ==> view[peer].Online?) <==>
        forall peer :: peer in peerIds ==> peer in table && table[peer].Online?)
  }

  /**
   Stored table and view together: an observer that lists and subscribes after `n` transactions and has consumed all
   that was relayed since sees exactly the stored connection states of its peers, and answers success exactly if all of
   them are stored as online, provided that no later transaction changes more connection states than the channel holds.
   */
  lemma ObserverFollowsStore(start: Store<PeerId, PeerConnectionState>,
                             ts: seq<Transaction<PeerId, PeerConnectionState>>, capacity: nat,
                             peerIds: set<PeerId>, n: nat)
    requires n <= |ts|
    requires forall i :: n <= i < |ts| ==>
                           Tells(Run(start, ts[..i], capacity), ts[i], capacity, Kind.PeerConnectionState)
    ensures var listed, now := Run(start, ts[..n], capacity), Run(start, ts, capacity);
            var log, subscribedAt := now.log.At(Kind.PeerConnectionState), |listed.log.At(Kind.PeerConnectionState)|;
            && subscribedAt <= |log|
            && Sees(peerIds,
                    Consumed(Selected(peerIds, listed.tables.At(Kind.PeerConnectionState)), log[subscribedAt..]),
                    now.tables.At(Kind.PeerConnectionState))
  {
    LaterLogReplays(start, ts, capacity, Kind.PeerConnectionState, n);
    hide Run, Tells, Replay, Consumed, Sees;
    var listed, now := Run(start, ts[..n], capacity), Run(start, ts, capacity);
    var log, a := now.log.At(Kind.PeerConnectionState), |listed.log.At(Kind.PeerConnectionState)|;
    ViewFollowsReplay(listed.tables.At(Kind.PeerConnectionState), log[a..], peerIds);
  }

  lemma ViewFollowsReplay(origin: Connections, log: seq<ConnectionEvent>, peerIds: set<PeerId>)
    ensures Sees(peerIds, Consumed(Selected(peerIds, origin), log), Replay(origin, log))
  {
    EmptyReplay(origin);
    hide Replay, Consumed;
    assert log[..|log|] == log && log[0..|log|] == log && log[..0] == [];
    ViewFollowsTable(origin, log, peerIds, 0, |log|);
  }

  lemma {:induction false} ConsumingNothing(events: seq<ConnectionEvent>)
    ensures Consumed(map[], events) == map[]
  {
    if events != [] {
      ConsumingNothing(events[..|events| - 1]);
    }
  }

  /** The gap matters: a peer that comes online between the listing and the subscription stays offline in the view. */
  lemma MissedOnlineEvent(peer: PeerId, host: Address)
    ensures var log := [Inserted(peer, Online(host))];
            && Consumed(Selected({peer}, Replay(map[], log[..0])), log[1..1])[peer] == Offline
            && StatusIn(Replay(map[], log[..1]), peer) == Online(host)
  {
    var log: seq<ConnectionEvent> := [Inserted(peer, Online(host))];
    assert log[..1] == log;
    ViewRightIff(map[], log, {peer}, 0, 1, 1, peer);
    assert Replay(map[], log) == ApplyEvent(Replay(map[], log[..0]), log[0]);
  }
}
