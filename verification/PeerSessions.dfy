/**
 The peer connection protocol at the granularity of single transactions and single accesses to the
 broker's map: every `open`, every session, and the handler of descriptor removals advance in steps
 that interleave freely.
 */
module PeerSessions {
  import opened Peers
  import opened Wrappers

  type SessionId = nat

  /** How far one call of `open`, and the session task it spawns, have come. */
  datatype Phase =
    | Arrived                        // about to look up the peer descriptor
    | Known                          // descriptor found, about to write the connection state
    | Refused                        // unknown peer, or already connected
    | WroteOnline                    // connection state committed
    | Registered                     // entry in the map of connected peers
    | OpenFailed                     // the initial configuration was not sent: no session task exists
    | Live                           // session loop runs
    | Leaving                        // loop left, teardown about to read the connection state
    | StateRead                      // about to look up the descriptor
    | DescriptorRead(deleted: bool)  // about to write or remove the connection state
    | StateWritten                   // about to leave the map of connected peers
    | Closed

  /** The handler of descriptor removals deals with one event at a time. */
  datatype Handler =
    | Waiting
    | Handling(peer: PeerId)         // about to read the connection state
    | RemovingState(peer: PeerId)    // has read Offline, about to remove the state
    | Disconnecting(peer: PeerId)    // has read Online, about to look up the entry
    | Marking(peer: PeerId, session: SessionId) // has sent the notice to that session, about to write its entry back

  datatype Session = Session(peer: PeerId, phase: Phase)

  /** What the map of connected peers holds for a peer: the sender of one session, and the disconnect mark. */
  datatype Entry = Entry(session: SessionId, marked: bool)

  datatype State = State(descriptors: set<PeerId>, connections: map<PeerId, PeerConnectionState>,
                         entries: map<PeerId, Entry>, sessions: map<SessionId, Session>,
                         removals: seq<PeerId>, handler: Handler)

  const INITIAL := State({}, map[], map[], map[], [], Waiting)

  datatype Step =
    | StoreDescriptor(peer: PeerId)
    | DeleteDescriptor(peer: PeerId)
    | Open(id: SessionId, peer: PeerId)
    | CheckDescriptor(id: SessionId)
    | WriteOnline(id: SessionId, host: Address)
    | Register(id: SessionId)
    | SendConfiguration(id: SessionId, sent: bool)
    | LeaveLoop(id: SessionId)
    | ReadState(id: SessionId)
    | ReadDescriptor(id: SessionId)
    | WriteState(id: SessionId)
    | Deregister(id: SessionId)
    | ReceiveRemoval
    | HandlerReadsState
    | HandlerRemovesState
    | HandlerNotifies(delivered: bool)
    | HandlerMarks

  predicate InPhase(s: State, id: SessionId, phase: Phase) {
    id in s.sessions && s.sessions[id].phase == phase
  }

  predicate Enabled(s: State, step: Step) {
    match step
    case StoreDescriptor(_) => true
    case DeleteDescriptor(peer) => peer in s.descriptors
    case Open(id, _) => id !in s.sessions
    case CheckDescriptor(id) => InPhase(s, id, Arrived)
    case WriteOnline(id, _) => InPhase(s, id, Known)
    case Register(id) => InPhase(s, id, WroteOnline)
    case SendConfiguration(id, _) => InPhase(s, id, Registered)
    case LeaveLoop(id) => InPhase(s, id, Live)
    case ReadState(id) => InPhase(s, id, Leaving)
    case ReadDescriptor(id) => InPhase(s, id, StateRead)
    case WriteState(id) => id in s.sessions && s.sessions[id].phase.DescriptorRead?
    case Deregister(id) => InPhase(s, id, StateWritten)
    case ReceiveRemoval => s.handler.Waiting? && s.removals != []
    case HandlerReadsState => s.handler.Handling?
    case HandlerRemovesState => s.handler.RemovingState?
    case HandlerNotifies(_) => s.handler.Disconnecting?
    case HandlerMarks => s.handler.Marking?
  }

  predicate IsOnline(s: State, peer: PeerId) {
    peer in s.connections && s.connections[peer].Online?
  }

  function Advance(s: State, id: SessionId, phase: Phase): State
    requires id in s.sessions
  {
    s.(sessions := s.sessions[id := s.sessions[id].(phase := phase)])
  }

  function Apply(s: State, step: Step): State
    requires Enabled(s, step)
  {
    match step
    case StoreDescriptor(peer) => s.(descriptors := s.descriptors + {peer})
    case DeleteDescriptor(peer) => s.(descriptors := s.descriptors - {peer}, removals := s.removals + [peer])
    case Open(id, peer) => s.(sessions := s.sessions[id := Session(peer, Arrived)])
    case CheckDescriptor(id) => Advance(s, id, if s.sessions[id].peer in s.descriptors then Known else Refused)
    case WriteOnline(id, host) =>
      var peer := s.sessions[id].peer;
      if IsOnline(s, peer) then Advance(s, id, Refused)
      else Advance(s.(connections := s.connections[peer := Online(host)]), id, WroteOnline)
    case Register(id) =>
      Advance(s.(entries := s.entries[s.sessions[id].peer := Entry(id, false)]), id, Registered)
    case SendConfiguration(id, sent) =>
      Advance(s, id, if sent && s.sessions[id].peer in s.entries then Live else OpenFailed)
    case LeaveLoop(id) => Advance(s, id, Leaving)
    case ReadState(id) => Advance(s, id, if s.sessions[id].peer in s.connections then StateRead else Closed)
    case ReadDescriptor(id) => Advance(s, id, DescriptorRead(s.sessions[id].peer !in s.descriptors))
    case WriteState(id) =>
      var peer := s.sessions[id].peer;
      Advance(s.(connections := if s.sessions[id].phase.deleted then s.connections - {peer}
                                else s.connections[peer := Offline]), id, StateWritten)
    case Deregister(id) => Advance(s.(entries := s.entries - {s.sessions[id].peer}), id, Closed)
    case ReceiveRemoval => s.(removals := s.removals[1..], handler := Handling(s.removals[0]))
    case HandlerReadsState =>
      var peer := s.handler.peer;
      s.(handler := if peer !in s.connections then Waiting
                    else if s.connections[peer].Offline? then RemovingState(peer)
                    else Disconnecting(peer))
    case HandlerRemovesState => s.(connections := s.connections - {s.handler.peer}, handler := Waiting)
    case HandlerNotifies(delivered) =>
      s.(handler := if delivered && s.handler.peer in s.entries
                    then Marking(s.handler.peer, s.entries[s.handler.peer].session) else Waiting)
    case HandlerMarks =>
      s.(entries := s.entries[s.handler.peer := Entry(s.handler.session, true)], handler := Waiting)
  }

  /** The state after a run; none if some step was not enabled. */
  function After(s: State, steps: seq<Step>): Option<State> {
    if steps == [] then Some(s)
    else
      match After(s, steps[..|steps| - 1])
      case None => None
      case Some(t) => if Enabled(t, steps[|steps| - 1]) then Some(Apply(t, steps[|steps| - 1])) else None
  }

  // ---------------------------------------------------------------- what the checks of the steps decide

  /** The outcome of every check that a step makes on the stored tables, and what the step then writes. */
  lemma ChecksDecide(s: State, step: Step)
    requires Enabled(s, step)
    ensures step.CheckDescriptor? ==>
              (InPhase(Apply(s, step), step.id, Known) <==> s.sessions[step.id].peer in s.descriptors)
    ensures step.WriteOnline? ==>
              var peer := s.sessions[step.id].peer;
              && (InPhase(Apply(s, step), step.id, WroteOnline) <==> !IsOnline(s, peer))
              && Apply(s, step).connections
                 == if IsOnline(s, peer) then s.connections else s.connections[peer := Online(step.host)]
    ensures step.ReadDescriptor? ==>
              InPhase(Apply(s, step), step.id, DescriptorRead(s.sessions[step.id].peer !in s.descriptors))
    ensures step.WriteState? ==>
              var peer := s.sessions[step.id].peer;
              && (peer in Apply(s, step).connections <==> !s.sessions[step.id].phase.deleted)
              && (peer in Apply(s, step).connections ==> Apply(s, step).connections[peer] == Offline)
    ensures step.HandlerReadsState? ==>
              var peer := s.handler.peer;
              && (Apply(s, step).handler == RemovingState(peer) <==> peer in s.connections && !IsOnline(s, peer))
              && (Apply(s, step).handler == Disconnecting(peer) <==> IsOnline(s, peer))
  {
  }

  /** Past the check of its descriptor, only a session of a peer that has been stored gets. */
  predicate Admitted(phase: Phase) {
    !phase.Arrived? && !phase.Refused?
  }

  lemma {:induction false} OnlyStoredPeersConnect(steps: seq<Step>, id: SessionId)
    requires After(INITIAL, steps).Some?
    ensures var s := After(INITIAL, steps).value;
            && (forall peer :: peer in s.descriptors ==> StoreDescriptor(peer) in steps)
            && (id in s.sessions && Admitted(s.sessions[id].phase) ==> StoreDescriptor(s.sessions[id].peer) in steps)
  {
    if steps != [] {
      var front, last := steps[..|steps| - 1], steps[|steps| - 1];
      assert steps == front + [last];
      OnlyStoredPeersConnect(front, id);
      AdmittedByDescriptor(After(INITIAL, front).value, last, id);
      hide Apply, Enabled, Admitted;
    }
  }

  lemma AdmittedByDescriptor(s: State, step: Step, id: SessionId)
    requires Enabled(s, step)
    ensures var s' := Apply(s, step);
            && (forall peer :: peer in s'.descriptors ==> peer in s.descriptors || step == StoreDescriptor(peer))
            && (id in s'.sessions && Admitted(s'.sessions[id].phase) ==>
                  && id in s.sessions && s.sessions[id].peer == s'.sessions[id].peer
                  && (Admitted(s.sessions[id].phase) || s'.sessions[id].peer in s.descriptors))
  {
  }

  // ---------------------------------------------------------------- ownership

  /** Between the Online write of an `open` and the write of its teardown. */
  predicate Owns(phase: Phase) {
    phase.WroteOnline? || phase.Registered? || phase.OpenFailed? || phase.Live? || phase.Leaving?
    || phase.StateRead? || phase.DescriptorRead?
  }

  predicate Owner(s: State, id: SessionId, peer: PeerId) {
    id in s.sessions && s.sessions[id].peer == peer && Owns(s.sessions[id].phase)
  }

  /** The peer is recorded Online exactly when one `open` owns it, and never do two. */
  ghost predicate OwnershipAt(s: State, peer: PeerId) {
    && (IsOnline(s, peer) <==> exists id :: Owner(s, id, peer))
    && (forall a, b :: Owner(s, a, peer) && Owner(s, b, peer) ==> a == b)
  }

  /** The handler removes a state of the peer that it has read as Offline but that is Online by now. */
  predicate StaleRemoval(s: State, step: Step, peer: PeerId) {
    step.HandlerRemovesState? && s.handler == RemovingState(peer) && IsOnline(s, peer)
  }

  /** A step that changes the ownership of `id` and the recorded state of its peer together. */
  lemma OwnershipMoves(s: State, s': State, id: SessionId, peer: PeerId)
    requires OwnershipAt(s, peer)
    requires forall other :: other != id ==> Owner(s', other, peer) == Owner(s, other, peer)
    requires Owner(s', id, peer) == IsOnline(s', peer)
    requires Owner(s, id, peer) || !IsOnline(s, peer)
    ensures OwnershipAt(s', peer)
  {
    assert forall other :: other != id ==> !Owner(s, other, peer);
  }

  /** A step that touches neither an owner nor the recorded state. */
  lemma OwnershipUntouched(s: State, s': State, peer: PeerId)
    requires OwnershipAt(s, peer)
    requires forall id :: Owner(s', id, peer) == Owner(s, id, peer)
    requires IsOnline(s', peer) == IsOnline(s, peer)
    ensures OwnershipAt(s', peer)
  {
    if id :| Owner(s, id, peer) {
      assert Owner(s', id, peer);
    }
  }

  /** Every step but a stale removal of the peer keeps its ownership; a stale removal always breaks it. */
  lemma StepKeepsOwnershipIff(s: State, step: Step, peer: PeerId)
    requires OwnershipAt(s, peer) && Enabled(s, step)
    ensures OwnershipAt(Apply(s, step), peer) <==> !StaleRemoval(s, step, peer)
  {
    var s' := Apply(s, step);
    match step {
      case WriteOnline(id, _) =>
        if s.sessions[id].peer == peer && !IsOnline(s, peer) {
          OwnershipMoves(s, s', id, peer);
        } else {
          OwnershipUntouched(s, s', peer);
        }
      case ReadState(id) =>
        assert s.sessions[id].peer == peer ==> Owner(s, id, peer);
        OwnershipUntouched(s, s', peer);
      case WriteState(id) =>
        if s.sessions[id].peer == peer {
          OwnershipMoves(s, s', id, peer);
        } else {
          OwnershipUntouched(s, s', peer);
        }
      case HandlerRemovesState =>
        if StaleRemoval(s, step, peer) {
          var id :| Owner(s, id, peer);
          assert Owner(s', id, peer) && !IsOnline(s', peer);
        } else {
          OwnershipUntouched(s, s', peer);
        }
      case _ => OwnershipUntouched(s, s', peer);
    }
  }

  // ---------------------------------------------------------------- runs without a hazard

  /** What can go wrong for one peer in a single step. */
  datatype Hazard = RemovesStaleState | LeavesLateState | TakesEntry

  ghost predicate Occurs(hazard: Hazard, s: State, step: Step, peer: PeerId) {
    match hazard
    case RemovesStaleState => StaleRemoval(s, step, peer)
    case LeavesLateState => LateOffline(s, step, peer)
    case TakesEntry => EntryTaken(s, step, peer)
  }

  ghost predicate Avoids(s: State, steps: seq<Step>, peer: PeerId, hazard: Hazard) {
    steps == [] ||
    (&& Avoids(s, steps[..|steps| - 1], peer, hazard)
     && var t := After(s, steps[..|steps| - 1]); t.Some? ==> !Occurs(hazard, t.value, steps[|steps| - 1], peer))
  }

  /** Ownership of the peer in every interleaving without a stale removal of it, whatever happens to other peers. */
  lemma {:induction false} OwnershipInEveryRun(s: State, steps: seq<Step>, peer: PeerId)
    requires OwnershipAt(s, peer) && After(s, steps).Some? && Avoids(s, steps, peer, RemovesStaleState)
    ensures OwnershipAt(After(s, steps).value, peer)
  {
    if steps != [] {
      var front, last := steps[..|steps| - 1], steps[|steps| - 1];
      OwnershipInEveryRun(s, front, peer);
      StepKeepsOwnershipIff(After(s, front).value, last, peer);
    }
  }

  predicate NoRemoval(s: State, peer: PeerId) {
    peer !in s.removals && (s.handler.Waiting? || s.handler.peer != peer)
  }

  lemma StepWithoutDeletion(s: State, step: Step, peer: PeerId)
    requires NoRemoval(s, peer) && Enabled(s, step) && step != DeleteDescriptor(peer)
    ensures NoRemoval(Apply(s, step), peer) && !StaleRemoval(s, step, peer)
  {
  }

  /** While the peer's descriptor is not deleted, the handler never has to do with the peer. */
  lemma {:induction false} NoDeletionNoStaleRemoval(s: State, steps: seq<Step>, peer: PeerId)
    requires NoRemoval(s, peer) && After(s, steps).Some?
    requires DeleteDescriptor(peer) !in steps
    ensures Avoids(s, steps, peer, RemovesStaleState)
    ensures NoRemoval(After(s, steps).value, peer)
  {
    if steps != [] {
      hide Apply, Enabled, NoRemoval, StaleRemoval;
      var front, last := steps[..|steps| - 1], steps[|steps| - 1];
      NoDeletionNoStaleRemoval(s, front, peer);
      StepWithoutDeletion(After(s, front).value, last, peer);
    }
  }

  /** From the initial state, in every run that does not delete the peer's descriptor. */
  lemma OwnershipWithoutDeletion(steps: seq<Step>, peer: PeerId)
    requires After(INITIAL, steps).Some?
    requires DeleteDescriptor(peer) !in steps
    ensures OwnershipAt(After(INITIAL, steps).value, peer)
  {
    NoDeletionNoStaleRemoval(INITIAL, steps, peer);
    OwnershipInEveryRun(INITIAL, steps, peer);
  }

  // ---------------------------------------------------------------- leftover connection states

  predicate RemovalUnderWay(s: State, peer: PeerId) {
    peer in s.removals || s.handler == Handling(peer) || s.handler == RemovingState(peer)
  }

  /** A connection state without descriptor belongs to an owner, or to a removal that will still look at it. */
  ghost predicate AccountedAt(s: State, peer: PeerId) {
    peer in s.connections && peer !in s.descriptors ==> RemovalUnderWay(s, peer) || exists id :: Owner(s, id, peer)
  }

  /**
   A teardown that has found the descriptor writes Offline after the descriptor and the handling of its removal are
   gone.
   */
  predicate LateOffline(s: State, step: Step, peer: PeerId) {
    && step.WriteState? && step.id in s.sessions && s.sessions[step.id] == Session(peer, DescriptorRead(false))
    && peer !in s.descriptors && !RemovalUnderWay(s, peer)
  }

  /** At the granularity of single transactions a state is left over exactly by such a late write. */
  lemma StepKeepsAccountedIff(s: State, step: Step, peer: PeerId)
    requires OwnershipAt(s, peer) && AccountedAt(s, peer) && Enabled(s, step)
    ensures AccountedAt(Apply(s, step), peer) <==> !LateOffline(s, step, peer)
  {
    var s' := Apply(s, step);
    if !LateOffline(s, step, peer) && peer in s'.connections && peer !in s'.descriptors && !RemovalUnderWay(s', peer) {
      StepKeepsAnOwner(s, step, peer);
    }
    if LateOffline(s, step, peer) {
      assert Owner(s, step.id, peer);
      forall id
        ensures !Owner(s', id, peer)
      {
        assert id != step.id ==> Owner(s', id, peer) == Owner(s, id, peer);
      }
    }
  }

  lemma StepKeepsAnOwner(s: State, step: Step, peer: PeerId)
    requires OwnershipAt(s, peer) && AccountedAt(s, peer) && Enabled(s, step) && !LateOffline(s, step, peer)
    requires var s' := Apply(s, step);
             peer in s'.connections && peer !in s'.descriptors && !RemovalUnderWay(s', peer)
    ensures exists id :: Owner(Apply(s, step), id, peer)
  {
    var s' := Apply(s, step);
    if step.WriteOnline? && s.sessions[step.id].peer == peer && !IsOnline(s, peer) {
      assert Owner(s', step.id, peer);
    } else {
      assert peer in s.connections && peer !in s.descriptors;
      assert exists id :: Owner(s, id, peer);
      var id :| Owner(s, id, peer);
      assert Owner(s', id, peer);
    }
  }

  /** No orphaned state in any interleaving without a stale removal or a late write for the peer. */
  lemma {:induction false} AccountedInEveryRun(steps: seq<Step>, peer: PeerId)
    requires After(INITIAL, steps).Some?
    requires Avoids(INITIAL, steps, peer, RemovesStaleState) && Avoids(INITIAL, steps, peer, LeavesLateState)
    ensures OwnershipAt(After(INITIAL, steps).value, peer) && AccountedAt(After(INITIAL, steps).value, peer)
  {
    OwnershipInEveryRun(INITIAL, steps, peer);
    if steps != [] {
      var front, last := steps[..|steps| - 1], steps[|steps| - 1];
      AccountedInEveryRun(front, peer);
      StepKeepsAccountedIff(After(INITIAL, front).value, last, peer);
    }
  }

  // ---------------------------------------------------------------- entries of connected peers

  /** An owner that has registered, and so relies on the peer's entry. */
  predicate Registrant(s: State, id: SessionId, peer: PeerId) {
    Owner(s, id, peer) && !s.sessions[id].phase.WroteOnline?
  }

  /** The session whose stream gets what is sent to the peer. */
  function Recipient(s: State, peer: PeerId): Option<SessionId> {
    if peer in s.entries then Some(s.entries[peer].session) else None
  }

  /** What is sent to the peer reaches the session that registered. */
  ghost predicate EntryAt(s: State, peer: PeerId) {
    forall id: SessionId :: Registrant(s, id, peer) ==> Recipient(s, peer) == Some(id)
  }

  /**
   After a newer session has registered, an older session of the peer removes its entry as its last act, or the handler
   writes back the marked entry of the session it has notified before.
   */
  ghost predicate EntryTaken(s: State, step: Step, peer: PeerId) {
    || (step.Deregister? && step.id in s.sessions && s.sessions[step.id].peer == peer
        && exists other :: Registrant(s, other, peer))
    || (step.HandlerMarks? && s.handler.Marking? && s.handler.peer == peer
        && exists other :: Registrant(s, other, peer) && other != s.handler.session)
  }

  /** A registered session keeps its own entry exactly unless one of these two happens. */
  lemma StepKeepsEntryIff(s: State, step: Step, peer: PeerId)
    requires OwnershipAt(s, peer) && EntryAt(s, peer) && Enabled(s, step)
    ensures EntryAt(Apply(s, step), peer) <==> !EntryTaken(s, step, peer)
  {
    var s' := Apply(s, step);
    if EntryTaken(s, step, peer) {
      var other :| Registrant(s, other, peer) && (step.HandlerMarks? ==> other != s.handler.session);
      assert Registrant(s', other, peer);
    } else {
      forall id: SessionId | Registrant(s', id, peer)
        ensures Recipient(s', peer) == Some(id)
      {
        RegistrantKeepsEntry(s, step, peer, id);
      }
    }
  }

  lemma RegistrantKeepsEntry(s: State, step: Step, peer: PeerId, id: SessionId)
    requires OwnershipAt(s, peer) && EntryAt(s, peer) && Enabled(s, step) && !EntryTaken(s, step, peer)
    requires Registrant(Apply(s, step), id, peer)
    ensures Recipient(Apply(s, step), peer) == Some(id)
  {
    if step != Register(id) {
      assert Registrant(s, id, peer);
      if step.Register? {
        assert s.sessions[step.id].peer == peer ==> Owner(s, step.id, peer);
      }
    }
  }

  /**
   Without that, the initial configuration of a session goes to its own stream, and is not sent only if sending fails.
   */
  lemma {:induction false} RegisteredAreReached(steps: seq<Step>, peer: PeerId)
    requires After(INITIAL, steps).Some?
    requires Avoids(INITIAL, steps, peer, RemovesStaleState) && Avoids(INITIAL, steps, peer, TakesEntry)
    ensures var s := After(INITIAL, steps).value;
            && EntryAt(s, peer)
            && forall id :: InPhase(s, id, Registered) && s.sessions[id].peer == peer ==>
                              && Recipient(s, peer) == Some(id)
                              && InPhase(Apply(s, SendConfiguration(id, true)), id, Live)
  {
    if steps != [] {
      hide Apply, Enabled, EntryAt, OwnershipAt, Occurs;
      var front, last := steps[..|steps| - 1], steps[|steps| - 1];
      RegisteredAreReached(front, peer);
      OwnershipInEveryRun(INITIAL, front, peer);
      StepKeepsEntryIff(After(INITIAL, front).value, last, peer);
      EntryNotTaken(After(INITIAL, front).value, last, peer);
    }
    EntryReaches(After(INITIAL, steps).value, peer);
  }

  lemma EntryNotTaken(s: State, step: Step, peer: PeerId)
    requires !Occurs(TakesEntry, s, step, peer)
    ensures !EntryTaken(s, step, peer)
  {
  }

  lemma EntryReaches(s: State, peer: PeerId)
    requires EntryAt(s, peer)
    ensures forall id :: InPhase(s, id, Registered) && s.sessions[id].peer == peer ==>
                           && Recipient(s, peer) == Some(id)
                           && InPhase(Apply(s, SendConfiguration(id, true)), id, Live)
  {
    forall id | InPhase(s, id, Registered) && s.sessions[id].peer == peer
      ensures Recipient(s, peer) == Some(id) && InPhase(Apply(s, SendConfiguration(id, true)), id, Live)
    {
      assert Registrant(s, id, peer);
    }
  }

  // ---------------------------------------------------------------- a failed open locks its peer

  lemma FailedStaysFailed(s: State, step: Step, id: SessionId)
    requires Enabled(s, step) && InPhase(s, id, OpenFailed)
    ensures InPhase(Apply(s, step), id, OpenFailed) && Apply(s, step).sessions[id].peer == s.sessions[id].peer
  {
  }

  /**
   When the initial configuration is not sent, no session task is left to tear the connection down: the peer stays
   recorded Online in every continuation, and no other `open` ever gets hold of it.
   */
  lemma {:induction false} FailedOpenLocksPeer(s: State, steps: seq<Step>, id: SessionId, peer: PeerId)
    requires OwnershipAt(s, peer) && After(s, steps).Some? && Avoids(s, steps, peer, RemovesStaleState)
    requires InPhase(s, id, OpenFailed) && s.sessions[id].peer == peer
    ensures var s' := After(s, steps).value;
            && InPhase(s', id, OpenFailed) && s'.sessions[id].peer == peer
            && IsOnline(s', peer)
            && forall other :: other != id ==> !Owner(s', other, peer)
  {
    OwnershipInEveryRun(s, steps, peer);
    if steps != [] {
      hide Apply, Enabled, OwnershipAt;
      var front := steps[..|steps| - 1];
      FailedOpenLocksPeer(s, front, id, peer);
      FailedStaysFailed(After(s, front).value, steps[|steps| - 1], id);
    }
    assert Owner(After(s, steps).value, id, peer);
  }

  // ---------------------------------------------------------------- two owners after a stale removal

  ghost predicate Reachable(s: State) {
    exists steps :: After(INITIAL, steps) == Some(s)
  }

  lemma Go(s: State, step: Step) returns (s': State)
    requires Reachable(s) && Enabled(s, step)
    ensures s' == Apply(s, step) && Reachable(s')
  {
    s' := Apply(s, step);
    var steps :| After(INITIAL, steps) == Some(s);
    assert (steps + [step])[..|steps|] == steps;
    assert After(INITIAL, steps + [step]) == Some(s');
  }

  /** A first connection that has written its state. */
  lemma WrittenOnline(peer: PeerId, host: Address) returns (s: State)
    ensures s == State({peer}, map[peer := Online(host)], map[], map[0 := Session(peer, WroteOnline)], [], Waiting)
    ensures Reachable(s)
  {
    assert After(INITIAL, []) == Some(INITIAL);
    assert Reachable(INITIAL);
    hide Reachable;
    s := Go(INITIAL, StoreDescriptor(peer));
    s := Go(s, Open(0, peer));
    s := Go(s, CheckDescriptor(0));
    s := Go(s, WriteOnline(0, host));
  }

  lemma Connected(peer: PeerId, host: Address) returns (s: State)
    ensures s == State({peer}, map[peer := Online(host)], map[peer := Entry(0, false)], map[0 := Session(peer, Live)],
                       [], Waiting)
    ensures Reachable(s)
  {
    hide Reachable;
    s := WrittenOnline(peer, host);
    s := Go(s, Register(0));
    s := Go(s, SendConfiguration(0, true));
  }

  /** Its teardown has looked up the descriptor. */
  lemma LookedUp(peer: PeerId, host: Address) returns (s: State)
    ensures s == State({peer}, map[peer := Online(host)], map[peer := Entry(0, false)],
                       map[0 := Session(peer, DescriptorRead(false))], [], Waiting)
    ensures Reachable(s)
  {
    s := Connected(peer, host);
    s := Go(s, LeaveLoop(0));
    s := Go(s, ReadState(0));
    s := Go(s, ReadDescriptor(0));
  }

  /** One complete connection, from a stored descriptor to a state written Offline. */
  lemma Visit(peer: PeerId, host: Address) returns (s: State)
    ensures s == State({peer}, map[peer := Offline], map[], map[0 := Session(peer, Closed)], [], Waiting)
    ensures Reachable(s)
  {
    s := LookedUp(peer, host);
    s := Go(s, WriteState(0));
    s := Go(s, Deregister(0));
  }

  /** The handler has read an Offline state of a peer that is then stored again. */
  lemma RemovalPending(peer: PeerId, host: Address) returns (s: State)
    ensures s == State({peer}, map[peer := Offline], map[], map[0 := Session(peer, Closed)], [], RemovingState(peer))
    ensures Reachable(s)
  {
    s := Visit(peer, host);
    s := Go(s, DeleteDescriptor(peer));
    s := Go(s, ReceiveRemoval);
    s := Go(s, HandlerReadsState);
    s := Go(s, StoreDescriptor(peer));
  }

  /**
   Two owners: a peer that once was online is deleted, the handler reads its Offline state, the peer is stored again and
   connects, the handler removes the state it believes Offline, and a second `open` is accepted.
   */
  lemma StaleRemovalAdmitsTwoOwners(peer: PeerId, host: Address) returns (s: State)
    ensures Reachable(s) && Owner(s, 1, peer) && Owner(s, 2, peer)
  {
    s := RemovalPending(peer, host);
    s := Go(s, Open(1, peer));
    s := Go(s, CheckDescriptor(1));
    s := Go(s, WriteOnline(1, host));
    assert StaleRemoval(s, HandlerRemovesState, peer);
    s := Go(s, HandlerRemovesState);
    s := Go(s, Open(2, peer));
    s := Go(s, CheckDescriptor(2));
    s := Go(s, WriteOnline(2, host));
  }

  /** A second session has found the descriptor before the first one leaves the map. */
  lemma Reconnecting(peer: PeerId, host: Address) returns (s: State)
    ensures s == State({peer}, map[peer := Offline], map[peer := Entry(0, false)],
                       map[0 := Session(peer, StateWritten), 1 := Session(peer, Known)], [], Waiting)
    ensures Reachable(s)
  {
    hide Reachable;
    s := LookedUp(peer, host);
    s := Go(s, WriteState(0));
    s := Go(s, Open(1, peer));
    s := Go(s, CheckDescriptor(1));
  }

  /**
   A lost entry: the peer reconnects after its old session has written Offline and before that session leaves the map.
   The new session is registered but has no entry, so that its open fails although sending would succeed.
   */
  lemma ReconnectLosesEntry(peer: PeerId, host: Address) returns (s: State)
    ensures Reachable(s) && InPhase(s, 1, Registered) && s.sessions[1].peer == peer && Recipient(s, peer) == None
    ensures InPhase(Apply(s, SendConfiguration(1, true)), 1, OpenFailed)
  {
    hide Reachable;
    s := Reconnecting(peer, host);
    s := Go(s, WriteOnline(1, host));
    s := Go(s, Register(1));
    assert s == State({peer}, map[peer := Online(host)], map[peer := Entry(1, false)],
                      map[0 := Session(peer, StateWritten), 1 := Session(peer, Registered)], [], Waiting);
    s := Go(s, Deregister(0));
  }

  /** The handler has notified the first session, which is then torn down completely. */
  lemma NotifiedAndGone(peer: PeerId, host: Address) returns (s: State)
    ensures s == State({}, map[], map[], map[0 := Session(peer, Closed)], [], Marking(peer, 0)) && Reachable(s)
  {
    hide Reachable;
    s := Connected(peer, host);
    s := Notified(s, peer, host);
    s := Go(s, LeaveLoop(0));
    s := Go(s, ReadState(0));
    s := Go(s, ReadDescriptor(0));
    s := Go(s, WriteState(0));
    s := Go(s, Deregister(0));
  }

  lemma Notified(connected: State, peer: PeerId, host: Address) returns (s: State)
    requires Reachable(connected)
    requires connected == State({peer}, map[peer := Online(host)], map[peer := Entry(0, false)],
                                map[0 := Session(peer, Live)], [], Waiting)
    ensures s == State({}, map[peer := Online(host)], map[peer := Entry(0, false)], map[0 := Session(peer, Live)], [],
                       Marking(peer, 0))
    ensures Reachable(s)
  {
    hide Reachable;
    s := Go(connected, DeleteDescriptor(peer));
    s := Go(s, ReceiveRemoval);
    s := Go(s, HandlerReadsState);
    s := Go(s, HandlerNotifies(true));
  }

  /** The peer is stored again, and a second session has found its descriptor. */
  lemma KnownAgain(peer: PeerId, host: Address) returns (s: State)
    ensures s == State({peer}, map[], map[], map[0 := Session(peer, Closed), 1 := Session(peer, Known)], [],
                       Marking(peer, 0))
    ensures Reachable(s)
  {
    hide Reachable;
    s := NotifiedAndGone(peer, host);
    s := Go(s, StoreDescriptor(peer));
    s := Go(s, Open(1, peer));
    s := Go(s, CheckDescriptor(1));
  }

  /**
   A replaced entry: the peer is stored again and reconnects before the handler writes back the marked entry of the
   session that is gone. What is sent to the peer goes to that session, and the new one is marked as disconnected.
   */
  lemma LateMarkReplacesEntry(peer: PeerId, host: Address) returns (s: State)
    ensures Reachable(s) && InPhase(s, 0, Closed) && InPhase(s, 1, Registered) && s.sessions[1].peer == peer
    ensures Recipient(s, peer) == Some(0) && s.entries[peer].marked
  {
    hide Reachable;
    s := KnownAgain(peer, host);
    s := Go(s, WriteOnline(1, host));
    s := Go(s, Register(1));
    s := Go(s, HandlerMarks);
  }

  /**
   A leftover state: a teardown looks up the descriptor just before it is deleted, and writes Offline after the handler
   has dealt with the deletion. Nothing is left that would ever remove the state.
   */
  lemma InterleavedTeardownLeavesOrphan(peer: PeerId, host: Address) returns (s: State)
    ensures Reachable(s) && peer in s.connections && peer !in s.descriptors
    ensures s.removals == [] && s.handler.Waiting? && forall id :: !Owner(s, id, peer)
  {
    s := LookedUp(peer, host);
    s := Go(s, DeleteDescriptor(peer));
    s := Go(s, ReceiveRemoval);
    s := Go(s, HandlerReadsState);
    s := Go(s, HandlerNotifies(false));
    s := Go(s, WriteState(0));
    s := Go(s, Deregister(0));
  }
}
