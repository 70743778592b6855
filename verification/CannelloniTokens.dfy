/**
 Generations of Cannelloni managers on EDGAR: every set-up of remote routing asks the managers of the one before to
 terminate through a token that they share, and gives its own managers a new token.
 */
module CannelloniTokens {
  import opened Peers
  import opened Wrappers
  import opened CanServerPorts
  import opened ClusterStar

  // ---------------------------------------------------------------- what a manager sees

  datatype ChildStatus = Running | Exited | Unknown

  /**
   One turn of the monitoring loop: what the status of the child is found to be, what the token is found to be, and, if
   the child is found exited, whether it can be spawned again.
   */
  datatype Turn = Turn(child: ChildStatus, token: bool, respawned: bool)

  datatype Ending = Terminated | SpawnFailed | KillFailed | StillMonitoring

  datatype Process = NotSpawned | Spawned | Gone | Killed

  /** The first turn at which the manager stops: a requested termination, or a child that cannot be restarted. */
  function Stop(turns: seq<Turn>): (r: Option<nat>)
    ensures r.Some? ==> r.value < |turns| && Stops(turns[r.value]) && forall k :: 0 <= k < r.value ==> !Stops(turns[k])
    ensures r.None? <==> forall k :: 0 <= k < |turns| ==> !Stops(turns[k])
  {
    if turns == [] then None
    else
      match Stop(turns[..|turns| - 1])
      case Some(k) => Some(k)
      case None => if Stops(turns[|turns| - 1]) then Some(|turns| - 1) else None
  }

  predicate Stops(turn: Turn) {
    if turn.child.Exited? then !turn.respawned else turn.token
  }

  /** How often the child is found exited. */
  function Exits(turns: seq<Turn>): (n: nat)
    ensures n <= |turns|
  {
    if turns == [] then 0 else Exits(turns[..|turns| - 1]) + if turns[|turns| - 1].child.Exited? then 1 else 0
  }

  // ---------------------------------------------------------------- the manager of one child process

  class AtomicBool {
    var value: bool

    constructor (value: bool)
      ensures this.value == value
    {
      this.value := value;
    }
  }

  datatype MonitorResult = RestartCannelloni | TerminateManager | OutOfTurns

  class CannelloniManager {
    const isServer: bool
    const serverPort: Port
    const remoteIp: Address
    const token: AtomicBool
    var process: Process
    var spawns: nat

    constructor (isServer: bool, serverPort: Port, remoteIp: Address, token: AtomicBool)
      ensures this.isServer == isServer && this.serverPort == serverPort && this.remoteIp == remoteIp
      ensures this.token == token
      ensures process == NotSpawned && spawns == 0
    {
      this.isServer, this.serverPort, this.remoteIp, this.token := isServer, serverPort, remoteIp, token;
      process, spawns := NotSpawned, 0;
    }

    /** A new child is only ever spawned when there is none, or the one before has exited. */
    method Spawn(ok: bool)
      requires process.NotSpawned? || process.Gone?
      modifies this
      ensures process == (if ok then Spawned else old(process)) && spawns == old(spawns) + if ok then 1 else 0
    {
      if ok {
        process, spawns := Spawned, spawns + 1;
      }
    }

    method MonitorProcess(turns: seq<Turn>, from: nat) returns (r: MonitorResult, next: nat)
      requires from <= |turns| && process.Spawned?
      modifies this`process
      ensures from <= next <= |turns|
      ensures process == if r.RestartCannelloni? then Gone else Spawned
      ensures r.OutOfTurns? ==> next == |turns| && Quiet(turns, from, next)
      ensures !r.OutOfTurns? ==>
                && from < next && Quiet(turns, from, next - 1)
                && (r.RestartCannelloni? <==> turns[next - 1].child.Exited?)
                && (r.TerminateManager? ==> turns[next - 1].token)
    {
      next := from;
      while next < |turns|
        invariant from <= next <= |turns| && process.Spawned?
        invariant Quiet(turns, from, next)
      {
        var turn := turns[next];
        next := next + 1;
        if turn.child.Exited? {
          process := Gone;
          return RestartCannelloni, next;
        }
        if turn.token {
          return TerminateManager, next;
        }
      }
      r := OutOfTurns;
    }

    /**
     Without a failure to spawn or kill, the manager returns only after reading true, with its child killed. At all
     times at most one child exists: each spawn but the first follows an exit.
     */
    method Run(spawned: bool, turns: seq<Turn>, killed: bool) returns (r: Ending)
      requires process.NotSpawned? && spawns == 0
      modifies this
      ensures !spawned ==> r == SpawnFailed && process == NotSpawned && spawns == 0
      ensures spawned && Stop(turns).None? ==>
                r == StillMonitoring && process == Spawned && spawns == 1 + Exits(turns)
      ensures spawned && Stop(turns).Some? ==>
                var k := Stop(turns).value;
                && spawns == 1 + Exits(turns[..k])
                && if turns[k].child.Exited? then r == SpawnFailed && process == Gone
                   else && turns[k].token && r == (if killed then Terminated else KillFailed)
                        && process == if killed then Killed else Spawned
    {
      hide Stop, Exits, Stops, BeforeSpawn;
      var next := 0;
      var ok := spawned;
      FirstSpawn(turns, spawned);
      while true
        invariant BeforeSpawn(turns, next, spawned, ok, spawns) && next <= |turns|
        invariant if next == 0 then process.NotSpawned? && ok == spawned else process.Gone? && spawned
        decreases |turns| - next, next == 0
      {
        Spawn(ok);
        if !ok {
          SpawnFails(turns, next, spawned, spawns);
          return SpawnFailed;
        }
        ghost var from := next;
        var result;
        result, next := MonitorProcess(turns, next);
        match result {
          case RestartCannelloni =>
            ok := turns[next - 1].respawned;
            ChildExited(turns, from, next, spawned, spawns - 1);
          case TerminateManager =>
            TokenRead(turns, from, next, spawned, spawns - 1);
            if !killed {
              return KillFailed;
            }
            process := Killed;
            return Terminated;
          case OutOfTurns =>
            NothingHappens(turns, from, spawned, spawns - 1);
            return StillMonitoring;
        }
      }
    }
  }

  /** The loop has come to spawning a child after turn `next - 1`, at which the one before was found exited. */
  ghost predicate BeforeSpawn(turns: seq<Turn>, next: nat, spawned: bool, ok: bool, spawns: nat) {
    && next <= |turns|
    && (next == 0 ==> ok == spawned && spawns == 0)
    && (next > 0 ==>
          && turns[next - 1].child.Exited? && ok == turns[next - 1].respawned
          && spawns == Exits(turns[..next])
          && forall k :: 0 <= k < next - 1 ==> !Stops(turns[k]))
  }

  /** Monitoring finds nothing from one turn to another. */
  predicate Quiet(turns: seq<Turn>, from: nat, to: nat)
    requires from <= to <= |turns|
  {
    forall k :: from <= k < to ==> !turns[k].child.Exited? && !turns[k].token
  }

  lemma FirstSpawn(turns: seq<Turn>, spawned: bool)
    ensures BeforeSpawn(turns, 0, spawned, spawned, 0)
  {
  }

  lemma NotStoppedBefore(turns: seq<Turn>, from: nat, to: nat, spawned: bool, spawns: nat)
    requires BeforeSpawn(turns, from, spawned, true, spawns) && from <= to <= |turns| && Quiet(turns, from, to)
    ensures forall k :: 0 <= k < to ==> !Stops(turns[k])
    ensures Exits(turns[..to]) == spawns
  {
    NoExits(turns, from, to);
    hide Exits;
    assert from == 0 ==> Exits(turns[..from]) == 0 by {
      NothingExited(turns);
    }
  }

  lemma NothingExited(turns: seq<Turn>)
    ensures Exits(turns[..0]) == 0
  {
  }

  lemma SpawnFails(turns: seq<Turn>, next: nat, spawned: bool, spawns: nat)
    requires BeforeSpawn(turns, next, spawned, false, spawns)
    ensures next == 0 ==> spawns == 0
    ensures next > 0 ==>
              && Stop(turns) == Some(next - 1) && turns[next - 1].child.Exited?
              && spawns == 1 + Exits(turns[..next - 1])
  {
    if next > 0 {
      assert turns[..next][..next - 1] == turns[..next - 1];
      StopsFirst(turns, next - 1);
    }
  }

  lemma StopsFirst(turns: seq<Turn>, k: nat)
    requires k < |turns| && Stops(turns[k]) && forall j :: 0 <= j < k ==> !Stops(turns[j])
    ensures Stop(turns) == Some(k)
  {
    hide Stop, Stops;
  }

  lemma ChildExited(turns: seq<Turn>, from: nat, next: nat, spawned: bool, spawns: nat)
    requires BeforeSpawn(turns, from, spawned, true, spawns) && from < next <= |turns|
    requires Quiet(turns, from, next - 1) && turns[next - 1].child.Exited?
    ensures BeforeSpawn(turns, next, spawned, turns[next - 1].respawned, spawns + 1)
  {
    NotStoppedBefore(turns, from, next - 1, spawned, spawns);
    assert turns[..next][..next - 1] == turns[..next - 1];
  }

  lemma TokenRead(turns: seq<Turn>, from: nat, next: nat, spawned: bool, spawns: nat)
    requires BeforeSpawn(turns, from, spawned, true, spawns) && from < next <= |turns|
    requires Quiet(turns, from, next - 1) && !turns[next - 1].child.Exited? && turns[next - 1].token
    ensures Stop(turns) == Some(next - 1) && Exits(turns[..next - 1]) == spawns
  {
    NotStoppedBefore(turns, from, next - 1, spawned, spawns);
    StopsFirst(turns, next - 1);
  }

  lemma NothingHappens(turns: seq<Turn>, from: nat, spawned: bool, spawns: nat)
    requires BeforeSpawn(turns, from, spawned, true, spawns) && from <= |turns| && Quiet(turns, from, |turns|)
    ensures Stop(turns) == None && Exits(turns) == spawns
  {
    NotStoppedBefore(turns, from, |turns|, spawned, spawns);
    assert turns[..|turns|] == turns;
  }

  ghost function ExitTurns(turns: seq<Turn>): set<int> {
    set k | 0 <= k < |turns| && turns[k].child.Exited?
  }

  /** Exits are counted turn by turn. */
  lemma {:induction false} ExitsCounted(turns: seq<Turn>)
    ensures Exits(turns) == |ExitTurns(turns)|
  {
    if turns != [] {
      var n := |turns| - 1;
      ExitsCounted(turns[..n]);
      if turns[n].child.Exited? {
        assert ExitTurns(turns) == ExitTurns(turns[..n]) + {n};
      } else {
        assert ExitTurns(turns) == ExitTurns(turns[..n]);
      }
    }
  }

  lemma {:induction false} NoExits(turns: seq<Turn>, from: nat, to: nat)
    requires from <= to <= |turns| && forall k :: from <= k < to ==> !turns[k].child.Exited?
    ensures Exits(turns[..to]) == Exits(turns[..from])
  {
    if from < to {
      NoExits(turns, from, to - 1);
      assert turns[..to][..to - 1] == turns[..to - 1];
    }
  }

  /** A manager whose token has turned true for good. */
  predicate Requested(turns: seq<Turn>, n: nat) {
    && n <= |turns|
    && (forall k :: 0 <= k < n ==> !turns[k].token)
    && (forall k :: n <= k < |turns| ==> turns[k].token)
  }

  /**
   Once asked to terminate, and as long as its child can be respawned, a manager stops at the first turn that does not
   find the child exited. A child that is found exited at every turn makes it restart the child forever.
   */
  lemma {:induction false} StopsUnlessAlwaysExited(turns: seq<Turn>, n: nat)
    requires Requested(turns, n) && forall k :: 0 <= k < |turns| ==> turns[k].respawned
    ensures Stop(turns).Some? <==> exists k :: n <= k < |turns| && !turns[k].child.Exited?
    ensures Stop(turns).Some? ==>
              var k := Stop(turns).value;
              n <= k && !turns[k].child.Exited? && forall j :: n <= j < k ==> turns[j].child.Exited?
  {
    if k :| n <= k < |turns| && !turns[k].child.Exited? {
      assert Stops(turns[k]);
    }
    if Stop(turns).Some? {
      var k := Stop(turns).value;
      assert forall j :: n <= j < k ==> !Stops(turns[j]);
    }
  }

  // ---------------------------------------------------------------- generations

  /** The managers spawned by one set-up, with the token they share. */
  datatype Generation = Generation(token: AtomicBool, managers: seq<CannelloniManager>)

  class CanManager {
    var token: AtomicBool
    /** All set-ups so far; the first entry stands for the time before any set-up. */
    var generations: seq<Generation>

    ghost predicate Valid()
      reads this
    {
      && generations != [] && generations[|generations| - 1].token == token
      && (forall i, j :: 0 <= i < j < |generations| ==> generations[i].token != generations[j].token)
      && (forall i, m :: 0 <= i < |generations| && m in generations[i].managers ==> m.token == generations[i].token)
    }

    /** Every manager of an earlier set-up is asked to terminate. */
    ghost predicate EarlierTerminated()
      reads this, set i | 0 <= i < |generations| :: generations[i].token
    {
      forall i :: 0 <= i < |generations| - 1 ==> generations[i].token.value
    }

    ghost predicate LatestRuns()
      reads this, token
    {
      !token.value
    }

    constructor ()
      ensures Valid() && EarlierTerminated() && LatestRuns() && |generations| == 1 && generations[0].managers == []
      ensures fresh(token)
    {
      var first := new AtomicBool(false);
      token, generations := first, [Generation(first, [])];
    }

    method TerminateCannelloniManagers()
      requires Valid()
      modifies token
      ensures token.value
      ensures forall i :: 0 <= i < |generations| - 1 ==> generations[i].token.value == old(generations[i].token.value)
    {
      token.value := true;
    }

    /** Keeps the earlier managers terminated exactly if those of the generation it replaces were asked to terminate. */
    method ReplaceToken()
      requires Valid()
      modifies this
      ensures Valid() && fresh(token) && LatestRuns()
      ensures generations == old(generations) + [Generation(token, [])]
      ensures EarlierTerminated() <==> old(EarlierTerminated()) && old(token.value)
    {
      ghost var before := generations;
      var next := new AtomicBool(false);
      token, generations := next, generations + [Generation(next, [])];
      assert forall i :: 0 <= i < |before| ==> generations[i] == before[i];
      assert before[|before| - 1].token == old(token);
    }

    method SpawnManager(isServer: bool, port: Port, ip: Address) returns (m: CannelloniManager)
      requires Valid()
      modifies this`generations
      ensures Valid() && fresh(m) && m.token == token
      ensures m.isServer == isServer && m.serverPort == port && m.remoteIp == ip
      ensures |generations| == |old(generations)| && generations[..|generations| - 1]
                == old(generations)[..|generations| - 1]
      ensures generations[|generations| - 1]
              == Generation(token, old(generations)[|old(generations)| - 1].managers + [m])
    {
      m := new CannelloniManager(isServer, port, ip, token);
      var last := generations[|generations| - 1];
      generations := generations[..|generations| - 1] + [Generation(token, last.managers + [m])];
    }

    method SetupRemoteRoutingClient(leaderIp: Address, leaderPort: Port)
      requires Valid() && EarlierTerminated()
      modifies this, token
      ensures Valid() && EarlierTerminated() && LatestRuns() && fresh(token)
      ensures |generations| == |old(generations)| + 1 && generations[..|old(generations)|] == old(generations)
      ensures var managers := generations[|generations| - 1].managers;
              && |managers| == 1 && fresh(managers[0])
              && !managers[0].isServer && managers[0].serverPort == leaderPort && managers[0].remoteIp == leaderIp
    {
      TerminateCannelloniManagers();
      ReplaceToken();
      var _ := SpawnManager(false, leaderPort, leaderIp);
    }

    method SetupRemoteRoutingServer(remotes: seq<PeerClusterAssignment>)
      requires Valid() && EarlierTerminated()
      modifies this, token
      ensures Valid() && EarlierTerminated() && LatestRuns() && fresh(token)
      ensures |generations| == |old(generations)| + 1 && generations[..|old(generations)|] == old(generations)
      ensures var managers := generations[|generations| - 1].managers;
              && |managers| == |remotes|
              && forall i :: 0 <= i < |remotes| ==>
                               && managers[i].isServer && managers[i].serverPort == remotes[i].canServerPort
                               && managers[i].remoteIp == remotes[i].vpnAddress
    {
      TerminateCannelloniManagers();
      ReplaceToken();
      for i := 0 to |remotes|
        invariant Valid() && EarlierTerminated() && LatestRuns() && fresh(token)
        invariant |generations| == |old(generations)| + 1 && generations[..|old(generations)|] == old(generations)
        invariant var managers := generations[|generations| - 1].managers;
                  && |managers| == i
                  && forall k :: 0 <= k < i ==>
                                   && managers[k].isServer && managers[k].serverPort == remotes[k].canServerPort
                                   && managers[k].remoteIp == remotes[k].vpnAddress
      {
        var _ := SpawnManager(true, remotes[i].canServerPort, remotes[i].vpnAddress);
      }
    }
  }

  // ---------------------------------------------------------------- sequences of set-ups

  predicate Implements(m: CannelloniManager, link: CanLink) {
    m.isServer == link.isServer && m.remoteIp == link.remote && m.serverPort == link.port
  }

  /** The part of setting up a member that concerns remote CAN routing: one manager per link of the member. */
  method SetupRemoteRouting(can: CanManager, a: ClusterAssignment, self: PeerId) returns (r: Result<(), SetupError>)
    requires can.Valid() && can.EarlierTerminated() && can.LatestRuns()
    modifies can, can.token
    ensures can.Valid() && can.EarlierTerminated() && can.LatestRuns()
    ensures can.token == old(can.token) || fresh(can.token)
    ensures r.Success? <==> CanLinks(a, self).Success?
    ensures r.Failure? ==> CanLinks(a, self) == Failure(r.error) && can.generations == old(can.generations)
    ensures r.Success? ==>
              var links := CanLinks(a, self).value;
              && |can.generations| == |old(can.generations)| + 1
              && can.generations[..|old(can.generations)|] == old(can.generations)
              && var managers := can.generations[|can.generations| - 1].managers;
                 |managers| == |links| && forall i :: 0 <= i < |links| ==> Implements(managers[i], links[i])
  {
    var localAssignment := AssignmentOf(a.assignments, self);
    if localAssignment.None? {
      return Failure(LocalPeerAssignmentNotFound);
    }
    if a.leader == self {
      var remotes := DetermineRemoteAssignments(a, self); // the leader always gets an answer
      can.SetupRemoteRoutingServer(remotes.value);
    } else {
      var leaderAssignment :- DetermineLeaderAssignment(a);
      can.SetupRemoteRoutingClient(leaderAssignment.vpnAddress, localAssignment.value.canServerPort);
    }
    r := Success(());
  }

  /** Handles assignments one after the other: only the managers of the latest set-up are not asked to terminate. */
  method HandleAssignments(assignments: seq<ClusterAssignment>, self: PeerId) returns (can: CanManager)
    ensures can.Valid() && |can.generations| == 1 + SetupsDone(assignments, self)
    ensures forall i, m :: 0 <= i < |can.generations| && m in can.generations[i].managers ==>
                             (m.token.value <==> i < |can.generations| - 1)
  {
    can := new CanManager();
    for i := 0 to |assignments|
      invariant fresh(can) && fresh(can.token)
      invariant can.Valid() && can.EarlierTerminated() && can.LatestRuns()
      invariant |can.generations| == 1 + SetupsDone(assignments[..i], self)
    {
      var _ := SetupRemoteRouting(can, assignments[i], self);
      assert assignments[..i + 1][..i] == assignments[..i];
    }
    assert assignments[..|assignments|] == assignments;
  }

  function SetupsDone(assignments: seq<ClusterAssignment>, self: PeerId): nat {
    if assignments == [] then 0
    else SetupsDone(assignments[..|assignments| - 1], self)
         + if CanLinks(assignments[|assignments| - 1], self).Success? then 1 else 0
  }
}
