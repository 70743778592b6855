/**
 The session task of a connected peer: it handles inbound messages until its channel is closed and
 empty, and closes the channel itself after a timeout or when the peer is marked as disconnected.
 */
module SessionLoop {

  const INBOUND_CAPACITY: nat := 1024

  /** Upstream messages; the number identifies one ping among others. */
  datatype Message = Ping(number: nat)

  /**
   What the outside does up to one reception: messages offered by the peer, the peer dropping its end of the channel,
   and whether the disconnect mark is set when the task looks at it afterwards.
   */
  datatype Tick = Tick(offered: seq<Message>, dropped: bool, marked: bool)

  /** `accepted` are all messages that ever entered the channel. */
  datatype Session = Session(buffer: seq<Message>, closed: bool, accepted: seq<Message>, handled: seq<Message>,
                             left: bool)

  const OPENED := Session([], false, [], [], false)

  // ---------------------------------------------------------------- specification

  function Min(a: nat, b: nat): nat {
    if a <= b then a else b
  }

  /** A closed channel takes nothing in, an open one as much as fits. */
  function Arrive(s: Session, tick: Tick): Session
    requires |s.buffer| <= INBOUND_CAPACITY
  {
    var fitting := if s.closed then [] else tick.offered[..Min(|tick.offered|, INBOUND_CAPACITY - |s.buffer|)];
    s.(buffer := s.buffer + fitting, accepted := s.accepted + fitting, closed := s.closed || tick.dropped)
  }

  /** One round of the loop: a buffered message, the end of a closed channel, or otherwise the timeout. */
  function Round(s: Session, tick: Tick): (r: Session)
    requires |s.buffer| <= INBOUND_CAPACITY
    ensures |r.buffer| <= INBOUND_CAPACITY
  {
    if s.left then s
    else
      var t := Arrive(s, tick);
      if t.buffer != [] then
        t.(buffer := t.buffer[1..], handled := t.handled + [t.buffer[0]], closed := t.closed || tick.marked)
      else if t.closed then t.(left := true)
      else t.(closed := true)
  }

  function Rounds(s: Session, ticks: seq<Tick>): (r: Session)
    requires |s.buffer| <= INBOUND_CAPACITY
    ensures |r.buffer| <= INBOUND_CAPACITY
  {
    if ticks == [] then s else Round(Rounds(s, ticks[..|ticks| - 1]), ticks[|ticks| - 1])
  }

  // ---------------------------------------------------------------- the task

  class SessionTask {
    var buffer: seq<Message>
    var closed: bool
    ghost var accepted: seq<Message>
    var handled: seq<Message>

    ghost function State(left: bool): Session
      reads this
    {
      Session(buffer, closed, accepted, handled, left)
    }

    constructor ()
      ensures State(false) == OPENED
    {
      buffer, closed, accepted, handled := [], false, [], [];
    }

    method Offer(tick: Tick)
      requires |buffer| <= INBOUND_CAPACITY
      modifies this
      ensures State(false) == Arrive(old(State(false)), tick)
    {
      if !closed {
        var fitting := tick.offered[..Min(|tick.offered|, INBOUND_CAPACITY - |buffer|)];
        buffer := buffer + fitting;
        accepted := accepted + fitting;
      }
      closed := closed || tick.dropped;
    }

    /** The loop, followed for as many rounds as there are ticks. */
    method Run(ticks: seq<Tick>) returns (left: bool)
      requires |buffer| <= INBOUND_CAPACITY
      modifies this
      ensures State(left) == Rounds(old(State(false)), ticks)
    {
      ghost var start := State(false);
      left := false;
      for i := 0 to |ticks|
        invariant |buffer| <= INBOUND_CAPACITY && !left
        invariant State(false) == Rounds(start, ticks[..i])
      {
        assert ticks[..i + 1][..i] == ticks[..i];
        Offer(ticks[i]);
        if buffer != [] {
          handled := handled + [buffer[0]];
          buffer := buffer[1..];
          if ticks[i].marked {
            closed := true;
          }
        } else if closed {
          left := true;
          StaysLeft(start, ticks, i + 1);
          return;
        } else {
          closed := true;
        }
      }
      assert ticks[..|ticks|] == ticks;
    }
  }

  lemma {:induction false} StaysLeft(s: Session, ticks: seq<Tick>, n: nat)
    requires |s.buffer| <= INBOUND_CAPACITY && n <= |ticks| && Rounds(s, ticks[..n]).left
    ensures Rounds(s, ticks) == Rounds(s, ticks[..n])
    decreases |ticks|
  {
    if n == |ticks| {
      assert ticks[..n] == ticks;
    } else {
      assert ticks[..|ticks| - 1][..n] == ticks[..n];
      StaysLeft(s, ticks[..|ticks| - 1], n);
    }
  }

  // ---------------------------------------------------------------- properties

  predicate Accounted(s: Session) {
    && s.handled + s.buffer == s.accepted
    && |s.buffer| <= INBOUND_CAPACITY
    && (s.left ==> s.closed && s.buffer == [])
  }

  lemma RoundAccounted(s: Session, tick: Tick)
    requires Accounted(s)
    ensures Accounted(Round(s, tick))
  {
    var t := Arrive(s, tick);
    assert t.handled + t.buffer == t.accepted;
    if t.buffer != [] {
      assert t.handled + t.buffer == t.handled + [t.buffer[0]] + t.buffer[1..];
    }
  }

  /**
   Handled messages are the accepted ones in order, short of what is still buffered; leaving leaves nothing behind.
   */
  lemma {:induction false} AcceptedMessagesAreHandled(ticks: seq<Tick>)
    ensures Accounted(Rounds(OPENED, ticks))
    ensures Rounds(OPENED, ticks).left ==> Rounds(OPENED, ticks).handled == Rounds(OPENED, ticks).accepted
  {
    if ticks != [] {
      hide Round;
      AcceptedMessagesAreHandled(ticks[..|ticks| - 1]);
      RoundAccounted(Rounds(OPENED, ticks[..|ticks| - 1]), ticks[|ticks| - 1]);
    }
  }

  /**
   Once the channel is closed, the task handles exactly the messages already buffered, one a round and whatever happens
   outside, and leaves in the round after.
   */
  lemma {:induction false} ClosedSessionDrains(s: Session, ticks: seq<Tick>)
    requires |s.buffer| <= INBOUND_CAPACITY && s.closed && !s.left
    ensures var t := Rounds(s, ticks);
            && t.closed
            && t.left == (|ticks| > |s.buffer|)
            && t.handled == s.handled + s.buffer[..Min(|ticks|, |s.buffer|)]
            && t.buffer == s.buffer[Min(|ticks|, |s.buffer|)..]
  {
    if ticks != [] {
      ClosedSessionDrains(s, ticks[..|ticks| - 1]);
    }
  }

  /**
   What one round does: an open channel takes in what fits, the oldest buffered message is handled, and the channel is
   closed afterwards if the peer dropped it, if the task found the disconnect mark, or if there was nothing to handle.
   */
  lemma RoundMeaning(s: Session, tick: Tick)
    requires |s.buffer| <= INBOUND_CAPACITY && !s.left
    ensures var t := Round(s, tick);
            var room := INBOUND_CAPACITY - |s.buffer|;
            var taken := if s.closed then []
                         else if |tick.offered| <= room then tick.offered else tick.offered[..room];
            && t.accepted == s.accepted + taken
            && t.handled + t.buffer == s.handled + (s.buffer + taken)
            && (s.buffer + taken != [] ==> t.handled == s.handled + [(s.buffer + taken)[0]])
            && (t.closed <==> s.closed || tick.dropped || tick.marked || s.buffer + taken == [])
            && (t.left <==> s.buffer + taken == [] && (s.closed || tick.dropped))
  {
    assert tick.offered[..|tick.offered|] == tick.offered;
    var t := Arrive(s, tick);
    if t.buffer != [] {
      assert t.handled + t.buffer == t.handled + [t.buffer[0]] + t.buffer[1..];
    }
  }

  /** A disconnect mark ends the session: at most the messages then buffered are still handled. */
  lemma MarkEndsSession(s: Session, tick: Tick, ticks: seq<Tick>)
    requires |s.buffer| <= INBOUND_CAPACITY && !s.left && tick.marked
    ensures var t := Round(s, tick);
            && t.closed
            && (|ticks| > |t.buffer| ==> Rounds(t, ticks).left && Rounds(t, ticks).handled == t.handled + t.buffer)
  {
    var t := Round(s, tick);
    if t.left {
      assert ticks[..0] == [] && t.buffer == [];
      StaysLeft(t, ticks, 0);
    } else {
      ClosedSessionDrains(t, ticks);
      if |ticks| > |t.buffer| {
        assert t.buffer[..|t.buffer|] == t.buffer;
      }
    }
  }

  /** A round in which nothing arrives and nothing is buffered times out, so silence of any length ends the session. */
  lemma SilenceEndsSession(s: Session, tick: Tick, ticks: seq<Tick>)
    requires s.buffer == [] && !s.left && tick.offered == [] && |ticks| >= 1
    ensures Rounds(Round(s, tick), ticks).left && Rounds(Round(s, tick), ticks).handled == s.handled
  {
    var t := Round(s, tick);
    if t.left {
      assert ticks[..0] == [];
      StaysLeft(t, ticks, 0);
    } else {
      ClosedSessionDrains(t, ticks);
    }
  }
}
