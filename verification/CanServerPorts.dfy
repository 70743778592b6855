/** Allocation of consecutive CAN server ports from a range, with a counter that wraps around. */
module CanServerPorts {
  import opened Wrappers

  const MAX_U16 := 65535

  type Port = nat

  datatype PortError = TooManyPeers | RangeTooNarrow | Overflow

  datatype Allocation = Allocation(ports: Result<seq<Port>, PortError>, counter: nat)

  // ---------------------------------------------------------------- specification

  function Consecutive(first: Port, n: nat): (ports: seq<Port>)
    ensures |ports| == n
  {
    seq(n, i => first + i)
  }

  /** The allocation of `n` ports, every sum and product of which is a 16-bit operation. */
  function Allocate(start: nat, end: nat, counter: nat, n: nat): Allocation {
    if n > MAX_U16 then Allocation(Failure(TooManyPeers), counter)
    else if start + n > MAX_U16 then Allocation(Failure(Overflow), counter)
    else if start + n >= end then Allocation(Failure(RangeTooNarrow), counter)
    else if n * 2 > MAX_U16 || start + n * 2 > MAX_U16 then Allocation(Failure(Overflow), counter)
    else if counter + n > MAX_U16 then Allocation(Failure(Overflow), counter)
    else
      var first := if counter + n >= end then start else counter;
      Allocation(Success(Consecutive(first, n)), first + n)
  }

  // ---------------------------------------------------------------- the allocator

  class PortAllocator {
    const start: nat
    const end: nat
    var counter: nat

    constructor (start: nat, end: nat)
      ensures this.start == start && this.end == end && counter == start
    {
      this.start, this.end := start, end;
      this.counter := start;
    }

    method DetermineCanServerPorts(n: nat) returns (r: Result<seq<Port>, PortError>)
      modifies this
      ensures Allocation(r, counter) == Allocate(start, end, old(counter), n)
    {
      if n > MAX_U16 {
        return Failure(TooManyPeers);
      }
      if start + n > MAX_U16 {
        return Failure(Overflow);
      }
      if start + n >= end {
        return Failure(RangeTooNarrow);
      }
      if n * 2 > MAX_U16 || start + n * 2 > MAX_U16 { // only compared, to warn about a narrow range
        return Failure(Overflow);
      }
      if counter + n > MAX_U16 {
        return Failure(Overflow);
      }
      if counter + n >= end {
        counter := start;
      }
      var ports: seq<Port> := [];
      for i := 0 to n
        invariant ports == Consecutive(counter, i)
      {
        ports := ports + [counter + i];
      }
      counter := counter + n;
      r := Success(ports);
    }
  }

  // ---------------------------------------------------------------- single allocations

  predicate InRange(start: nat, end: nat, counter: nat) {
    counter == start || start <= counter < end
  }

  /** A successful allocation hands out distinct ports of the range, and the counter stays in range. */
  lemma AllocatedPorts(start: nat, end: nat, counter: nat, n: nat)
    requires InRange(start, end, counter)
    ensures var a := Allocate(start, end, counter, n);
            && InRange(start, end, a.counter)
            && (a.ports.Failure? ==> a.counter == counter)
            && (a.ports.Success? ==>
                  && |a.ports.value| == n
                  && (forall port :: port in a.ports.value ==> start <= port < end)
                  && forall i, j :: 0 <= i < j < n ==> a.ports.value[i] != a.ports.value[j])
  {
  }

  /** Where the range and the number of peers leave room below 2^16, no 16-bit operation overflows. */
  lemma NoOverflow(start: nat, end: nat, counter: nat, n: nat)
    requires start < end && end + n <= MAX_U16 + 1 && InRange(start, end, counter)
    ensures Allocate(start, end, counter, n).ports != Failure(Overflow)
    ensures Allocate(start, end, counter, n).ports.Success? <==> start + n < end
  {
  }

  // ---------------------------------------------------------------- sequences of allocations

  function CounterAfter(start: nat, end: nat, counter: nat, requests: seq<nat>): nat {
    if requests == [] then counter
    else
      var before := CounterAfter(start, end, counter, requests[..|requests| - 1]);
      Allocate(start, end, before, requests[|requests| - 1]).counter
  }

  /** The ports handed out for request `i` of a sequence. */
  function PortsOf(start: nat, end: nat, counter: nat, requests: seq<nat>, i: nat): Result<seq<Port>, PortError>
    requires i < |requests|
  {
    Allocate(start, end, CounterAfter(start, end, counter, requests[..i]), requests[i]).ports
  }

  /** The sum of the requests `i` to `j - 1`. */
  function Sum(requests: seq<nat>, i: nat, j: nat): nat
    requires i <= j <= |requests|
    decreases j - i
  {
    if i == j then 0 else Sum(requests, i, j - 1) + requests[j - 1]
  }

  lemma {:induction false} CounterInRange(start: nat, end: nat, requests: seq<nat>)
    ensures InRange(start, end, CounterAfter(start, end, start, requests))
  {
    if requests != [] {
      CounterInRange(start, end, requests[..|requests| - 1]);
      AllocatedPorts(start, end, CounterAfter(start, end, start, requests[..|requests| - 1]), requests[|requests| - 1]);
    }
  }

  lemma {:induction false} SumSplit(requests: seq<nat>, i: nat, k: nat, j: nat)
    requires i <= k <= j <= |requests|
    ensures Sum(requests, i, j) == Sum(requests, i, k) + Sum(requests, k, j)
    decreases j
  {
    if k < j {
      SumSplit(requests, i, k, j - 1);
    }
  }

  /**
   Where the counter is before request `m`, seen from request `i`: still ahead of its first port, or wrapped at request
   `k`, at which point the end of the range had been reached.
   */
  ghost predicate Located(start: nat, end: nat, requests: seq<nat>, i: nat, first: nat, m: nat) {
    && i < m <= |requests|
    && var counter := CounterAfter(start, end, start, requests[..m]);
       || (first + Sum(requests, i, i + 1) <= counter <= first + Sum(requests, i, m))
       || (exists k :: i < k < m && first + Sum(requests, i, k + 1) >= end
                       && counter <= start + Sum(requests, k, m))
  }

  /** What a successful request begins with. */
  function FirstPort(start: nat, end: nat, requests: seq<nat>, i: nat): nat
    requires i < |requests|
  {
    var counter := CounterAfter(start, end, start, requests[..i]);
    if counter + requests[i] >= end then start else counter
  }

  /** One more request moves the counter on, or wraps it for the first time. */
  lemma LocatedNext(start: nat, end: nat, requests: seq<nat>, i: nat, first: nat, m: nat)
    requires Located(start, end, requests, i, first, m) && m < |requests|
    requires Sum(requests, i, m + 1) < end - start
    ensures Located(start, end, requests, i, first, m + 1)
  {
    var counter := CounterAfter(start, end, start, requests[..m]);
    var next := CounterAfter(start, end, start, requests[..m + 1]);
    assert requests[..m + 1][..m] == requests[..m];
    assert Sum(requests, m, m + 1) == requests[m];
    var allocation := Allocate(start, end, counter, requests[m]);
    if allocation.ports.Success? && counter + requests[m] >= end {
      if first + Sum(requests, i, i + 1) <= counter <= first + Sum(requests, i, m) {
        assert first + Sum(requests, i, m + 1) >= end && next <= start + Sum(requests, m, m + 1);
      } else {
        var k :| i < k < m && first + Sum(requests, i, k + 1) >= end && counter <= start + Sum(requests, k, m);
        SumSplit(requests, i, k, m + 1);
        assert false;
      }
    } else if !(first + Sum(requests, i, i + 1) <= counter <= first + Sum(requests, i, m)) {
      var k :| i < k < m && first + Sum(requests, i, k + 1) >= end && counter <= start + Sum(requests, k, m);
      assert next <= start + Sum(requests, k, m + 1);
    }
  }

  lemma {:induction false} LocatedLater(start: nat, end: nat, requests: seq<nat>, i: nat, m: nat)
    requires i < m <= |requests| && Sum(requests, i, m) < end - start
    requires PortsOf(start, end, start, requests, i).Success?
    ensures Located(start, end, requests, i, FirstPort(start, end, requests, i), m)
    decreases m
  {
    if m == i + 1 {
      assert requests[..i + 1][..i] == requests[..i];
    } else {
      LocatedLater(start, end, requests, i, m - 1);
      LocatedNext(start, end, requests, i, FirstPort(start, end, requests, i), m - 1);
    }
  }

  /** The two intervals of ports lie one after the other. */
  lemma WindowIntervals(start: nat, end: nat, requests: seq<nat>, i: nat, j: nat, largest: nat)
    requires i < j < |requests| && PortsOf(start, end, start, requests, i).Success?
    requires forall k :: i <= k <= j ==> requests[k] <= largest
    requires Sum(requests, i, j + 1) + largest <= end - start
    requires requests[j] >= 1
    ensures var first, second := FirstPort(start, end, requests, i), FirstPort(start, end, requests, j);
            second + requests[j] <= first || first + requests[i] <= second
  {
    var first, counter := FirstPort(start, end, requests, i), CounterAfter(start, end, start, requests[..j]);
    var second := FirstPort(start, end, requests, j);
    assert second == if counter + requests[j] >= end then start else counter;
    LocatedLater(start, end, requests, i, j);
    hide FirstPort, CounterAfter, PortsOf;
    assert Sum(requests, i, i + 1) == requests[i];
    assert Sum(requests, i, j + 1) == Sum(requests, i, j) + requests[j];
    if !(first + Sum(requests, i, i + 1) <= counter <= first + Sum(requests, i, j)) {
      var k :| i < k < j && first + Sum(requests, i, k + 1) >= end && counter <= start + Sum(requests, k, j);
      WrappedBefore(requests, i, k, j, largest);
      assert counter + requests[j] <= start + Sum(requests, k, j + 1) <= first;
    }
  }

  /** A request `k` in the window is counted twice where one sum ends with it and another one begins with it. */
  lemma WrappedBefore(requests: seq<nat>, i: nat, k: nat, j: nat, largest: nat)
    requires i < k < j < |requests| && requests[k] <= largest
    ensures Sum(requests, i, k + 1) + Sum(requests, k, j + 1) <= Sum(requests, i, j + 1) + largest
    ensures Sum(requests, k, j + 1) == Sum(requests, k, j) + requests[j]
  {
    SumSplit(requests, i, k, j + 1);
    assert Sum(requests, i, k + 1) == Sum(requests, i, k) + requests[k];
  }

  lemma PortsFromFirst(start: nat, end: nat, requests: seq<nat>, i: nat)
    requires i < |requests| && PortsOf(start, end, start, requests, i).Success?
    ensures PortsOf(start, end, start, requests, i).value
            == Consecutive(FirstPort(start, end, requests, i), requests[i])
  {
  }

  predicate DisjointPorts(a: seq<Port>, b: seq<Port>) {
    forall i, j :: 0 <= i < |a| && 0 <= j < |b| ==> a[i] != b[j]
  }

  /**
   Two successful requests get disjoint ports whenever all requests from the one to the other, plus the largest of them,
   fit into the range.
   */
  lemma PortWindow(start: nat, end: nat, requests: seq<nat>, i: nat, j: nat, largest: nat)
    requires i < j < |requests|
    requires PortsOf(start, end, start, requests, i).Success? && PortsOf(start, end, start, requests, j).Success?
    requires requests[i] >= 1 && requests[j] >= 1
    requires forall k :: i <= k <= j ==> requests[k] <= largest
    requires Sum(requests, i, j + 1) + largest <= end - start
    ensures DisjointPorts(PortsOf(start, end, start, requests, i).value, PortsOf(start, end, start, requests, j).value)
  {
    WindowIntervals(start, end, requests, i, j, largest);
    PortsFromFirst(start, end, requests, i);
    PortsFromFirst(start, end, requests, j);
    hide PortsOf, FirstPort;
  }

  /** The allocations for the requests `a, 1, a, 1` in a range of `2a + 1` ports, of which the third wraps around. */
  lemma WrappingAllocations(start: nat, a: nat)
    requires a >= 2 && start + 2 * a + 1 <= MAX_U16
    ensures PortsOf(start, start + 2 * a + 1, start, [a, 1, a, 1], 1) == Success(Consecutive(start + a, 1))
    ensures PortsOf(start, start + 2 * a + 1, start, [a, 1, a, 1], 3) == Success(Consecutive(start + a, 1))
  {
    var requests, end := [a, 1, a, 1], start + 2 * a + 1;
    assert requests[..1][..0] == [] && requests[..2][..1] == requests[..1] && requests[..3][..2] == requests[..2];
    assert CounterAfter(start, end, start, requests[..1]) == start + a;
    assert CounterAfter(start, end, start, requests[..2]) == start + a + 1;
    assert CounterAfter(start, end, start, requests[..3]) == start + a;
  }

  /**
   The window cannot be wider: for every `a` there are a range and requests of which the second and the fourth, together
   with those between and the largest of them, exceed the range by just one, and still get the same port.
   */
  lemma WindowIsSharp(start: nat, a: nat)
    requires a >= 2 && start + 2 * a + 1 <= MAX_U16
    ensures var requests, end := [a, 1, a, 1], start + 2 * a + 1;
            && (forall k :: 1 <= k <= 3 ==> requests[k] <= a)
            && Sum(requests, 1, 4) + a == end - start + 1
            && PortsOf(start, end, start, requests, 1).Success? && PortsOf(start, end, start, requests, 3).Success?
            && !DisjointPorts(PortsOf(start, end, start, requests, 1).value,
                              PortsOf(start, end, start, requests, 3).value)
  {
    var requests, end := [a, 1, a, 1], start + 2 * a + 1;
    WrappingAllocations(start, a);
    var port := PortsOf(start, end, start, requests, 1).value;
    assert port[0] == start + a;
    assert Sum(requests, 1, 2) == Sum(requests, 1, 1) + 1;
    assert Sum(requests, 1, 3) == Sum(requests, 1, 2) + a;
    assert Sum(requests, 1, 4) == Sum(requests, 1, 3) + 1;
  }
}
