/**
 CARL's resource store: transactions over six tables that queue one event per successful change,
 and relay the queued events to the subscribers only when the transaction was committed.
 Identifiers and values of all resource types are abstract types `I` and `V`.
 */
module ResourceEvents {
  import opened Wrappers

  datatype Kind =
    | ClusterConfiguration
    | ClusterDeployment
    | OldPeerConfiguration
    | PeerConfiguration
    | PeerDescriptor
    | PeerConnectionState

  /** Configurations sent to peers and connection states are kept in memory only. */
  predicate IsPersistent(kind: Kind) {
    kind.ClusterConfiguration? || kind.ClusterDeployment? || kind.PeerDescriptor?
  }

  /** One field per resource type. */
  datatype PerKind<T> = PerKind(clusterConfiguration: T, clusterDeployment: T, oldPeerConfiguration: T,
                                peerConfiguration: T, peerDescriptor: T, peerConnectionState: T)
  {
    function At(kind: Kind): T {
      match kind
      case ClusterConfiguration => clusterConfiguration
      case ClusterDeployment => clusterDeployment
      case OldPeerConfiguration => oldPeerConfiguration
      case PeerConfiguration => peerConfiguration
      case PeerDescriptor => peerDescriptor
      case PeerConnectionState => peerConnectionState
    }

    function With(kind: Kind, t: T): (r: PerKind<T>)
      ensures forall k :: r.At(k) == if k == kind then t else At(k)
    {
      match kind
      case ClusterConfiguration => this.(clusterConfiguration := t)
      case ClusterDeployment => this.(clusterDeployment := t)
      case OldPeerConfiguration => this.(oldPeerConfiguration := t)
      case PeerConfiguration => this.(peerConfiguration := t)
      case PeerDescriptor => this.(peerDescriptor := t)
      case PeerConnectionState => this.(peerConnectionState := t)
    }
  }

  function Same<T>(t: T): PerKind<T> {
    PerKind(t, t, t, t, t, t)
  }

  datatype Event<I, V> = Inserted(id: I, value: V) | Removed(id: I, value: V)

  // ---------------------------------------------------------------- specification

  function ApplyEvent<I, V>(table: map<I, V>, event: Event<I, V>): map<I, V> {
    match event
    case Inserted(id, value) => table[id := value]
    case Removed(id, _) => table - {id}
  }

  function Replay<I, V>(table: map<I, V>, events: seq<Event<I, V>>): map<I, V> {
    if events == [] then table
    else ApplyEvent(Replay(table, events[..|events| - 1]), events[|events| - 1])
  }

  /** Every removal event carries the value that was in the table. */
  ghost predicate Truthful<I, V>(table: map<I, V>, events: seq<Event<I, V>>) {
    forall i :: 0 <= i < |events| && events[i].Removed? ==>
                  && events[i].id in Replay(table, events[..i])
                  && Replay(table, events[..i])[events[i].id] == events[i].value
  }

  /** A change requested inside a transaction, and whether the storage carries it out. */
  datatype Change<I, V> =
    | Insert(kind: Kind, id: I, value: V, accepted: bool)
    | Remove(kind: Kind, id: I, accepted: bool)

  datatype Working<I, V> = Working(tables: PerKind<map<I, V>>, queued: PerKind<seq<Event<I, V>>>)

  function Execute<I, V>(w: Working<I, V>, change: Change<I, V>): Working<I, V> {
    if !change.accepted then w
    else
      match change
      case Insert(kind, id, value, _) =>
        Working(w.tables.With(kind, w.tables.At(kind)[id := value]),
                w.queued.With(kind, w.queued.At(kind) + [Inserted(id, value)]))
      case Remove(kind, id, _) =>
        if id !in w.tables.At(kind) then w
        else
          Working(w.tables.With(kind, w.tables.At(kind) - {id}),
                  w.queued.With(kind, w.queued.At(kind) + [Removed(id, w.tables.At(kind)[id])]))
  }

  function ExecuteAll<I, V>(w: Working<I, V>, changes: seq<Change<I, V>>): Working<I, V> {
    if changes == [] then w
    else Execute(ExecuteAll(w, changes[..|changes| - 1]), changes[|changes| - 1])
  }

  /** How a transaction ends; the two databases are committed one after the other. */
  datatype Ending = Committed | ClosureFailed | DatabaseCommitFailed | MemoryCommitFailed

  datatype Transaction<I, V> = Transaction(changes: seq<Change<I, V>>, ending: Ending)

  /** The tables, and per type all events ever relayed to subscribers. */
  datatype Store<I, V> = Store(tables: PerKind<map<I, V>>, log: PerKind<seq<Event<I, V>>>)

  /** The relay loop stops at the first receive error, so a queue that lost its oldest events is not relayed at all. */
  function Relayed<E>(queue: seq<E>, capacity: nat): seq<E> {
    if |queue| <= capacity then queue else []
  }

  function Begin<I, V>(s: Store<I, V>): Working<I, V> {
    Working(s.tables, Same([]))
  }

  function TableAfter<I, V>(s: Store<I, V>, t: Transaction<I, V>, kind: Kind): map<I, V> {
    var w := ExecuteAll(Begin(s), t.changes);
    match t.ending
    case Committed => w.tables.At(kind)
    case MemoryCommitFailed => if IsPersistent(kind) then w.tables.At(kind) else s.tables.At(kind)
    case _ => s.tables.At(kind)
  }

  function RelayedBy<I, V>(s: Store<I, V>, t: Transaction<I, V>, capacity: nat, kind: Kind): seq<Event<I, V>> {
    if t.ending.Committed? then Relayed(ExecuteAll(Begin(s), t.changes).queued.At(kind), capacity) else []
  }

  function TablesAfter<I, V>(s: Store<I, V>, t: Transaction<I, V>): (r: PerKind<map<I, V>>)
    ensures forall k :: r.At(k) == TableAfter(s, t, k)
  {
    PerKind(TableAfter(s, t, ClusterConfiguration), TableAfter(s, t, ClusterDeployment),
            TableAfter(s, t, OldPeerConfiguration), TableAfter(s, t, PeerConfiguration),
            TableAfter(s, t, PeerDescriptor), TableAfter(s, t, PeerConnectionState))
  }

  /** Appends queues to logs, type by type. */
  function Append<E>(log: PerKind<seq<E>>, queues: PerKind<seq<E>>): (r: PerKind<seq<E>>)
    ensures forall k :: r.At(k) == log.At(k) + queues.At(k)
  {
    PerKind(log.clusterConfiguration + queues.clusterConfiguration, log.clusterDeployment + queues.clusterDeployment,
            log.oldPeerConfiguration + queues.oldPeerConfiguration, log.peerConfiguration + queues.peerConfiguration,
            log.peerDescriptor + queues.peerDescriptor, log.peerConnectionState + queues.peerConnectionState)
  }

  function RelayedAll<E>(queues: PerKind<seq<E>>, capacity: nat): (r: PerKind<seq<E>>)
    ensures forall k :: r.At(k) == Relayed(queues.At(k), capacity)
  {
    PerKind(Relayed(queues.clusterConfiguration, capacity), Relayed(queues.clusterDeployment, capacity),
            Relayed(queues.oldPeerConfiguration, capacity), Relayed(queues.peerConfiguration, capacity),
            Relayed(queues.peerDescriptor, capacity), Relayed(queues.peerConnectionState, capacity))
  }

  function Step<I, V>(s: Store<I, V>, t: Transaction<I, V>, capacity: nat): Store<I, V> {
    Store(TablesAfter(s, t),
          if t.ending.Committed? then Append(s.log, RelayedAll(ExecuteAll(Begin(s), t.changes).queued, capacity))
          else s.log)
  }

  function Run<I, V>(s: Store<I, V>, ts: seq<Transaction<I, V>>, capacity: nat): Store<I, V> {
    if ts == [] then s else Step(Run(s, ts[..|ts| - 1], capacity), ts[|ts| - 1], capacity)
  }

  // ---------------------------------------------------------------- the algorithm

  /** The transaction handle given to a closure. */
  class Resources<I(==), V(==)> {
    var tables: PerKind<map<I, V>>
    var queued: PerKind<seq<Event<I, V>>>

    ghost function State(): Working<I, V>
      reads this
    {
      Working(tables, queued)
    }

    constructor (tables: PerKind<map<I, V>>)
      ensures State() == Working(tables, Same([]))
    {
      this.tables := tables;
      this.queued := Same([]);
    }

    method Insert(kind: Kind, id: I, value: V, accepted: bool) returns (ok: bool)
      modifies this
      ensures ok == accepted
      ensures State() == Execute(old(State()), Change.Insert(kind, id, value, accepted))
      ensures accepted ==>
                && tables == old(tables).With(kind, old(tables).At(kind)[id := value])
                && queued == old(queued).With(kind, old(queued).At(kind) + [Inserted(id, value)])
      ensures !accepted ==> tables == old(tables) && queued == old(queued)
    {
      ok := accepted;
      if ok {
        tables := tables.With(kind, tables.At(kind)[id := value]);
        queued := queued.With(kind, queued.At(kind) + [Inserted(id, value)]);
      }
    }

    method Remove(kind: Kind, id: I, accepted: bool) returns (removed: Result<Option<V>, ()>)
      modifies this
      ensures removed.Failure? <==> !accepted
      ensures accepted ==> removed.value
                           == if id in old(tables).At(kind) then Some(old(tables).At(kind)[id]) else None
      ensures State() == Execute(old(State()), Change.Remove(kind, id, accepted))
      ensures accepted && id in old(tables).At(kind) ==>
                && tables == old(tables).With(kind, old(tables).At(kind) - {id})
                && queued == old(queued).With(kind, old(queued).At(kind) + [Removed(id, old(tables).At(kind)[id])])
      ensures !accepted || id !in old(tables).At(kind) ==> tables == old(tables) && queued == old(queued)
    {
      if !accepted {
        return Failure(());
      }
      if id !in tables.At(kind) {
        return Success(None);
      }
      removed := Success(Some(tables.At(kind)[id]));
      tables := tables.With(kind, tables.At(kind) - {id});
      queued := queued.With(kind, queued.At(kind) + [Removed(id, removed.value.value)]);
    }
  }

  datatype Receive<E> = Received(event: E) | Lagged(missed: nat) | Empty

  /** Receiver of a bounded broadcast channel that has `sent` behind it and keeps the newest `capacity` events. */
  function TryReceive<E>(sent: seq<E>, cursor: nat, capacity: nat): (r: (Receive<E>, nat))
    requires cursor <= |sent|
    ensures cursor <= r.1 <= |sent|
    ensures r.0.Empty? <==> cursor == |sent|
    ensures r.0.Received? ==> r.0.event == sent[cursor] && r.1 == cursor + 1 && |sent| - cursor <= capacity
    ensures r.0.Lagged? ==> r.0.missed > 0 && r.1 == cursor + r.0.missed && |sent| - r.1 == capacity
  {
    if cursor == |sent| then (Empty, cursor)
    else if |sent| - cursor > capacity then (Lagged(|sent| - capacity - cursor), |sent| - capacity)
    else (Received(sent[cursor]), cursor + 1)
  }

  class ResourceManager<I(==), V(==)> {
    const capacity: nat
    var tables: PerKind<map<I, V>>
    var log: PerKind<seq<Event<I, V>>>

    ghost function State(): Store<I, V>
      reads this
    {
      Store(tables, log)
    }

    constructor (capacity: nat)
      ensures this.capacity == capacity && State() == Store(Same(map[]), Same([]))
    {
      this.capacity := capacity;
      this.tables := Same(map[]);
      this.log := Same([]);
    }

    /** Forwards the queued events of one type until receiving fails. */
    method SendRelayedSubscriptionEvents(kind: Kind, queue: seq<Event<I, V>>)
      modifies this`log
      ensures log == old(log).With(kind, old(log).At(kind) + Relayed(queue, capacity))
    {
      var cursor := 0;
      assert log.At(kind) + queue[..0] == log.At(kind);
      var received, next := TryReceive(queue, cursor, capacity).0, TryReceive(queue, cursor, capacity).1;
      while received.Received?
        invariant cursor <= |queue| && (received, next) == TryReceive(queue, cursor, capacity)
        invariant cursor > 0 ==> |queue| <= capacity
        invariant log == old(log).With(kind, old(log).At(kind) + queue[..cursor])
        decreases |queue| - cursor
      {
        assert old(log).At(kind) + queue[..next] == log.At(kind) + [received.event];
        log := log.With(kind, log.At(kind) + [received.event]);
        cursor := next;
        received, next := TryReceive(queue, cursor, capacity).0, TryReceive(queue, cursor, capacity).1;
      }
      assert queue[..cursor] == Relayed(queue, capacity);
    }

    method Relay(queued: PerKind<seq<Event<I, V>>>)
      modifies this`log
      ensures log == Append(old(log), RelayedAll(queued, capacity))
    {
      SendRelayedSubscriptionEvents(ClusterConfiguration, queued.clusterConfiguration);
      SendRelayedSubscriptionEvents(ClusterDeployment, queued.clusterDeployment);
      SendRelayedSubscriptionEvents(OldPeerConfiguration, queued.oldPeerConfiguration);
      SendRelayedSubscriptionEvents(PeerConfiguration, queued.peerConfiguration);
      SendRelayedSubscriptionEvents(PeerDescriptor, queued.peerDescriptor);
      SendRelayedSubscriptionEvents(PeerConnectionState, queued.peerConnectionState);
    }

    method ResourcesMut(t: Transaction<I, V>) returns (ok: bool)
      modifies this
      ensures ok == t.ending.Committed?
      ensures State() == Step(old(State()), t, capacity)
      ensures t.ending.ClosureFailed? || t.ending.DatabaseCommitFailed? ==> State() == old(State())
      ensures forall kind :: !ok || |ExecuteAll(Begin(old(State())), t.changes).queued.At(kind)| > capacity ==>
                               log.At(kind) == old(log).At(kind)
    {
      var transaction := new Resources(tables);
      ghost var begin := Begin(State());
      for i := 0 to |t.changes|
        invariant transaction.State() == ExecuteAll(begin, t.changes[..i])
        invariant unchanged(this) && fresh(transaction)
      {
        assert t.changes[..i + 1][..i] == t.changes[..i];
        match t.changes[i] {
          case Insert(kind, id, value, accepted) =>
            var _ := transaction.Insert(kind, id, value, accepted);
          case Remove(kind, id, accepted) =>
            var _ := transaction.Remove(kind, id, accepted);
        }
      }
      assert t.changes[..|t.changes|] == t.changes;
      if t.ending.Committed? || t.ending.MemoryCommitFailed? {
        tables := PerKind(transaction.tables.clusterConfiguration, transaction.tables.clusterDeployment,
                          tables.oldPeerConfiguration, tables.peerConfiguration,
                          transaction.tables.peerDescriptor, tables.peerConnectionState);
      }
      if t.ending.Committed? {
        tables := transaction.tables;
        Relay(transaction.queued);
      }
      ok := t.ending.Committed?;
    }
  }

  // ---------------------------------------------------------------- properties

  lemma {:induction false} ReplayConcat<I, V>(table: map<I, V>, a: seq<Event<I, V>>, b: seq<Event<I, V>>)
    ensures Replay(table, a + b) == Replay(Replay(table, a), b)
    decreases |b|
  {
    if b == [] {
      assert a + b == a;
    } else {
      ReplayConcat(table, a, b[..|b| - 1]);
      assert (a + b)[..|a + b| - 1] == a + b[..|b| - 1];
    }
  }

  /** The queue of one type is an exact account of what happened to its table. */
  ghost predicate Describes<I, V>(table: map<I, V>, w: Working<I, V>, kind: Kind) {
    && Replay(table, w.queued.At(kind)) == w.tables.At(kind)
    && Truthful(table, w.queued.At(kind))
  }

  lemma ReplayMore<I, V>(table: map<I, V>, events: seq<Event<I, V>>, event: Event<I, V>)
    requires Truthful(table, events)
    requires event.Removed? ==> event.id in Replay(table, events) && Replay(table, events)[event.id] == event.value
    ensures Replay(table, events + [event]) == ApplyEvent(Replay(table, events), event)
    ensures Truthful(table, events + [event])
  {
    var more := events + [event];
    assert more[..|events|] == events;
    assert forall i :: 0 <= i <= |events| ==> more[..i] == events[..i];
  }

  lemma ChangeDescribed<I, V>(table: map<I, V>, w: Working<I, V>, change: Change<I, V>, kind: Kind)
    requires Describes(table, w, kind)
    ensures Describes(table, Execute(w, change), kind)
  {
    hide Replay, Truthful;
    if change.accepted && change.kind == kind {
      match change {
        case Insert(_, id, value, _) =>
          ReplayMore(table, w.queued.At(kind), Inserted(id, value));
        case Remove(_, id, _) =>
          if id in w.tables.At(kind) {
            ReplayMore(table, w.queued.At(kind), Removed(id, w.tables.At(kind)[id]));
          }
      }
    }
  }

  lemma {:induction false} QueueDescribesChanges<I, V>(s: Store<I, V>, changes: seq<Change<I, V>>, kind: Kind)
    ensures Describes(s.tables.At(kind), ExecuteAll(Begin(s), changes), kind)
  {
    if changes != [] {
      hide Describes, Execute;
      QueueDescribesChanges(s, changes[..|changes| - 1], kind);
      ChangeDescribed(s.tables.At(kind), ExecuteAll(Begin(s), changes[..|changes| - 1]), changes[|changes| - 1], kind);
    }
  }

  /** The last of the changes that the storage has carried out for the resource. */
  function LastChange<I(==), V>(changes: seq<Change<I, V>>, kind: Kind, id: I): Option<Change<I, V>> {
    if changes == [] then None
    else
      var last := changes[|changes| - 1];
      if last.accepted && last.kind == kind && last.id == id then Some(last)
      else LastChange(changes[..|changes| - 1], kind, id)
  }

  /** The table entry that the last change leaves behind; without one the former entry stays. */
  ghost predicate Settles<I, V>(before: map<I, V>, change: Option<Change<I, V>>, id: I, now: map<I, V>) {
    match change
    case None => (id in now <==> id in before) && (id in now ==> now[id] == before[id])
    case Some(Insert(_, _, value, _)) => id in now && now[id] == value
    case Some(Remove(_, _, _)) => id !in now
  }

  /** In a transaction every table entry is what the last change carried out for it makes it. */
  lemma {:induction false} TablesByLastChange<I, V>(s: Store<I, V>, changes: seq<Change<I, V>>, kind: Kind, id: I)
    ensures Settles(s.tables.At(kind), LastChange(changes, kind, id), id,
                    ExecuteAll(Begin(s), changes).tables.At(kind))
  {
    if changes != [] {
      TablesByLastChange(s, changes[..|changes| - 1], kind, id);
    }
  }

  /**
   So it is in the store after a committed transaction; after any other ending but a half-done commit nothing changed.
   */
  lemma CommittedTables<I, V>(s: Store<I, V>, t: Transaction<I, V>, capacity: nat, kind: Kind, id: I)
    ensures t.ending.Committed? || (t.ending.MemoryCommitFailed? && IsPersistent(kind)) ==>
              Settles(s.tables.At(kind), LastChange(t.changes, kind, id), id, Step(s, t, capacity).tables.At(kind))
    ensures !t.ending.Committed? && !(t.ending.MemoryCommitFailed? && IsPersistent(kind)) ==>
              Step(s, t, capacity).tables.At(kind) == s.tables.At(kind)
  {
    TablesByLastChange(s, t.changes, kind, id);
  }

  /** Replaying what was relayed since `origin` reproduces the table of one type. */
  ghost predicate Replays<I, V>(origin: PerKind<map<I, V>>, s: Store<I, V>, kind: Kind) {
    Replay(origin.At(kind), s.log.At(kind)) == s.tables.At(kind)
  }

  /** The transaction tells the subscribers of this type everything it did. */
  ghost predicate Tells<I, V>(s: Store<I, V>, t: Transaction<I, V>, capacity: nat, kind: Kind) {
    match t.ending
    case Committed => |ExecuteAll(Begin(s), t.changes).queued.At(kind)| <= capacity
    case MemoryCommitFailed => !IsPersistent(kind)
    case _ => true
  }

  /** One transaction keeps the log replayable exactly if it tells everything or leaves the table as it was. */
  lemma StepReplaysIff<I, V>(origin: PerKind<map<I, V>>, s: Store<I, V>, t: Transaction<I, V>, capacity: nat,
                             kind: Kind)
    requires Replays(origin, s, kind)
    ensures Replays(origin, Step(s, t, capacity), kind) <==>
            Tells(s, t, capacity, kind) || TableAfter(s, t, kind) == s.tables.At(kind)
  {
    hide Replay, ExecuteAll;
    QueueDescribesChanges(s, t.changes, kind);
    var relayed := RelayedBy(s, t, capacity, kind);
    ReplayConcat(origin.At(kind), s.log.At(kind), relayed);
    assert Step(s, t, capacity).log.At(kind) == s.log.At(kind) + relayed;
    if relayed == [] {
      assert s.log.At(kind) + relayed == s.log.At(kind);
      EmptyReplay(s.tables.At(kind));
    }
  }

  /** Insertions of the ids below `n`. */
  function Insertions<V>(kind: Kind, value: V, n: nat): seq<Change<nat, V>> {
    seq(n, i requires 0 <= i < n => Insert(kind, i, value, true))
  }

  lemma {:induction false} InsertionsQueued<V>(s: Store<nat, V>, kind: Kind, value: V, n: nat)
    ensures var w := ExecuteAll(Begin(s), Insertions(kind, value, n));
            |w.queued.At(kind)| == n && forall i :: 0 <= i < n ==> i in w.tables.At(kind)
  {
    if n > 0 {
      InsertionsQueued(s, kind, value, n - 1);
      var changes := Insertions(kind, value, n);
      assert changes[..n - 1] == Insertions(kind, value, n - 1);
      assert changes[n - 1] == Insert(kind, n - 1, value, true);
    }
  }

  /** The condition matters: for every channel, one insertion more than it holds makes the log lose the table. */
  lemma OverfullTransactionBreaksReplay<V>(kind: Kind, value: V, capacity: nat)
    ensures var empty: Store<nat, V> := Store(Same(map[]), Same([]));
            var t := Transaction(Insertions(kind, value, capacity + 1), Committed);
            Replays(Same(map[]), empty, kind) && !Replays(Same(map[]), Step(empty, t, capacity), kind)
  {
    var empty: Store<nat, V> := Store(Same(map[]), Same([]));
    var t := Transaction(Insertions(kind, value, capacity + 1), Committed);
    EmptyReplay<nat, V>(map[]);
    assert empty.tables.At(kind) == map[] && empty.log.At(kind) == [];
    StepReplaysIff(Same(map[]), empty, t, capacity, kind);
    InsertionsQueued(empty, kind, value, capacity + 1);
    assert 0 in TableAfter(empty, t, kind);
  }

  /** What a transaction that tells everything relays turns the table before it into the one after it. */
  lemma StepTold<I, V>(s: Store<I, V>, t: Transaction<I, V>, capacity: nat, kind: Kind)
    requires Tells(s, t, capacity, kind)
    ensures Replay(s.tables.At(kind), RelayedBy(s, t, capacity, kind)) == TableAfter(s, t, kind)
  {
    hide Replay, ExecuteAll;
    QueueDescribesChanges(s, t.changes, kind);
    EmptyReplay(s.tables.At(kind));
  }

  /** What the log of `now` holds beyond that of `before` turns the one table into the other. */
  ghost predicate LeadsTo<I, V>(before: Store<I, V>, now: Store<I, V>, kind: Kind) {
    && before.log.At(kind) <= now.log.At(kind)
    && Replay(before.tables.At(kind), now.log.At(kind)[|before.log.At(kind)|..]) == now.tables.At(kind)
  }

  lemma LeadsToItself<I, V>(s: Store<I, V>, kind: Kind)
    ensures LeadsTo(s, s, kind)
  {
    EmptyReplay(s.tables.At(kind));
    assert s.log.At(kind)[|s.log.At(kind)|..] == [];
  }

  lemma StepLeadsOn<I, V>(before: Store<I, V>, s: Store<I, V>, t: Transaction<I, V>, capacity: nat, kind: Kind)
    requires LeadsTo(before, s, kind) && Tells(s, t, capacity, kind)
    ensures LeadsTo(before, Step(s, t, capacity), kind)
  {
    hide Replay, RelayedBy, Step, Tells, TableAfter;
    StepTold(s, t, capacity, kind);
    StepAppends(s, t, capacity, kind);
    var start := |before.log.At(kind)|;
    var suffix, relayed := s.log.At(kind)[start..], RelayedBy(s, t, capacity, kind);
    ReplayConcat(before.tables.At(kind), suffix, relayed);
    assert (s.log.At(kind) + relayed)[start..] == suffix + relayed;
  }

  /** From any state on, what is relayed later describes what happens to the table later. */
  lemma {:induction false} LaterLogReplays<I, V>(s: Store<I, V>, ts: seq<Transaction<I, V>>, capacity: nat, kind: Kind,
                                                 n: nat)
    requires n <= |ts|
    requires forall i :: n <= i < |ts| ==> Tells(Run(s, ts[..i], capacity), ts[i], capacity, kind)
    ensures LeadsTo(Run(s, ts[..n], capacity), Run(s, ts, capacity), kind)
    decreases |ts|
  {
    hide Step, Tells, Replay;
    if n == |ts| {
      assert ts[..n] == ts;
      LeadsToItself(Run(s, ts, capacity), kind);
    } else {
      var front, last := ts[..|ts| - 1], ts[|ts| - 1];
      assert front[..n] == ts[..n];
      assert forall i :: n <= i < |front| ==> front[..i] == ts[..i];
      LaterLogReplays(s, front, capacity, kind, n);
      StepLeadsOn(Run(s, ts[..n], capacity), Run(s, front, capacity), last, capacity, kind);
    }
  }

  lemma StepAppends<I, V>(s: Store<I, V>, t: Transaction<I, V>, capacity: nat, kind: Kind)
    ensures Step(s, t, capacity).log.At(kind) == s.log.At(kind) + RelayedBy(s, t, capacity, kind)
    ensures Step(s, t, capacity).tables.At(kind) == TableAfter(s, t, kind)
  {
    hide ExecuteAll;
  }

  lemma EmptyReplay<I, V>(table: map<I, V>)
    ensures Replay(table, []) == table
  {
  }

  /** In every run of transactions that tell everything, the relayed events of a type rebuild its current table. */
  lemma {:induction false} EventLogReplaysStore<I, V>(origin: PerKind<map<I, V>>, ts: seq<Transaction<I, V>>,
                                                      capacity: nat, kind: Kind)
    requires forall i :: 0 <= i < |ts| ==> Tells(Run(Store(origin, Same([])), ts[..i], capacity), ts[i], capacity, kind)
    ensures Replays(origin, Run(Store(origin, Same([])), ts, capacity), kind)
    ensures Truthful(origin.At(kind), Run(Store(origin, Same([])), ts, capacity).log.At(kind))
  {
    var start := Store(origin, Same([]));
    if ts != [] {
      var front, last := ts[..|ts| - 1], ts[|ts| - 1];
      assert forall i :: 0 <= i < |front| ==> front[..i] == ts[..i];
      EventLogReplaysStore(origin, front, capacity, kind);
      var s := Run(start, front, capacity);
      StepReplaysIff(origin, s, last, capacity, kind);
      QueueDescribesChanges(s, last.changes, kind);
      var relayed := RelayedBy(s, last, capacity, kind);
      if relayed == [] {
        assert s.log.At(kind) + relayed == s.log.At(kind);
      } else {
        TruthfulConcat(origin.At(kind), s.log.At(kind), relayed);
      }
    }
  }

  lemma TruthfulConcat<I, V>(table: map<I, V>, a: seq<Event<I, V>>, b: seq<Event<I, V>>)
    requires Truthful(table, a) && Truthful(Replay(table, a), b)
    ensures Truthful(table, a + b)
  {
    var whole := a + b;
    forall i | 0 <= i < |whole| && whole[i].Removed?
      ensures whole[i].id in Replay(table, whole[..i])
      ensures Replay(table, whole[..i])[whole[i].id] == whole[i].value
    {
      if i < |a| {
        assert whole[..i] == a[..i];
      } else {
        assert whole[..i] == a + b[..i - |a|];
        ReplayConcat(table, a, b[..i - |a|]);
      }
    }
  }
}
