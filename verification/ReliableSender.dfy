/**
 The retransmission queue of one connection (network/src/reliable_sender.rs). Messages are
 named by the order in which the connection receives them. What the peer, the network and
 the callers do is up to the environment: sends fail, replies arrive or not, handlers are
 closed, connections break and come back at any time.
 */
module ReliableSender {
  datatype Link = Link(
    next: nat,            // messages received from the callers so far
    closed: set<nat>,     // messages whose cancel handler the caller has dropped
    buffer: seq<nat>,     // to be transmitted
    pending: seq<nat>,    // transmitted on this connection, not acknowledged
    connected: bool,
    sent: seq<nat>,       // everything transmitted on this connection
    acks: seq<nat>,       // acknowledged, on any connection
    before: nat,          // how many of these came before this connection
    dropped: set<nat>)    // taken out of the queue because they were cancelled

  const EMPTY := Link(0, {}, [], [], false, [], [], 0, {})

  datatype Event =
    | Submit             // reliable_sender.rs:188-191 and 244-247
    | Cancel(id: nat)    // the caller drops its handler
    | Connect            // reliable_sender.rs:160-172
    | Send(ok: bool)     // one turn of the loop at 215-241
    | Reply(ok: bool)    // reliable_sender.rs:248-266

  // ---------------------------------------------------------------- the steps

  // Messages that have not been cancelled (reliable_sender.rs:190).
  function Retain(buffer: seq<nat>, closed: set<nat>): seq<nat> {
    if buffer == [] then []
    else if buffer[0] in closed then Retain(buffer[1..], closed)
    else [buffer[0]] + Retain(buffer[1..], closed)
  }

  function Elements(s: seq<nat>): set<nat> {
    set k | 0 <= k < |s| :: s[k]
  }

  // A broken connection puts what was not acknowledged back in front (reliable_sender.rs:273-275).
  function Break(l: Link): Link {
    l.(buffer := l.pending + l.buffer, pending := [], connected := false)
  }

  // The loop of keep_alive reads a reply only after the buffer is drained.
  predicate Possible(l: Link, e: Event) {
    match e
    case Submit => l.connected ==> l.buffer == []
    case Cancel(id) => id < l.next
    case Connect => !l.connected
    case Send(_) => l.connected && l.buffer != []
    case Reply(_) => l.connected && l.buffer == []
  }

  function Step(l: Link, e: Event): Link {
    match e
    case Submit =>
      var l' := l.(buffer := l.buffer + [l.next], next := l.next + 1);
      if l.connected then l' else Sweep(l')
    case Cancel(id) => l.(closed := l.closed + {id})
    case Connect => l.(connected := true, sent := [], before := |l.acks|)
    case Send(ok) => SendFirst(l, ok)
    case Reply(ok) =>
      if l.pending == [] || !ok then Break(l)
      else l.(acks := l.acks + [l.pending[0]], pending := l.pending[1..])
  }

  function Sweep(l: Link): Link {
    l.(buffer := Retain(l.buffer, l.closed), dropped := l.dropped + (Elements(l.buffer) * l.closed))
  }

  function SendFirst(l: Link, ok: bool): Link {
    if l.buffer == [] then l
    else
      var first := l.buffer[0];
      if first in l.closed then l.(buffer := l.buffer[1..], dropped := l.dropped + {first})
      else if ok then l.(buffer := l.buffer[1..], pending := l.pending + [first], sent := l.sent + [first])
      else Break(l)
  }

  // ---------------------------------------------------------------- the invariant

  predicate Increasing(s: seq<nat>) {
    forall i, j :: 0 <= i < j < |s| ==> s[i] < s[j]
  }

  // Acknowledged messages, then unacknowledged ones, then unsent ones.
  function Line(l: Link): seq<nat> {
    l.acks + (l.pending + l.buffer)
  }

  /**
   The line is in submission order without duplicates; a message is acknowledged, held or
   dropped, never two of these and never none; only cancelled messages are dropped; and
   within a connection the i-th reply acknowledges the i-th message sent.
   */
  ghost predicate Inv(l: Link) {
    && Increasing(Line(l))
    && (forall id :: 0 <= id < l.next <==> id in Line(l) || id in l.dropped)
    && (forall id :: id in l.dropped ==> id !in Line(l) && id in l.closed)
    && l.before <= |l.acks|
    && (if l.connected then l.sent == l.acks[l.before..] + l.pending else l.pending == [])
  }

  lemma JoinIncreasing(a: seq<nat>, b: seq<nat>)
    requires Increasing(a) && Increasing(b) && forall x, y :: x in a && y in b ==> x < y
    ensures Increasing(a + b)
  {
    forall i, j | 0 <= i < j < |a + b| ensures (a + b)[i] < (a + b)[j] {
      if i < |a| <= j {
        assert a[i] in a && b[j - |a|] in b;
      }
    }
  }

  lemma SplitIncreasing(a: seq<nat>, b: seq<nat>)
    requires Increasing(a + b)
    ensures Increasing(a) && Increasing(b) && forall x, y :: x in a && y in b ==> x < y
  {
    var c := a + b;
    assert forall k :: 0 <= k < |a| ==> a[k] == c[k];
    assert forall k :: 0 <= k < |b| ==> b[k] == c[|a| + k];
  }

  lemma {:induction false} RetainHas(s: seq<nat>, closed: set<nat>, id: nat)
    ensures id in Retain(s, closed) <==> id in s && id !in closed
  {
    if s != [] {
      RetainHas(s[1..], closed, id);
      assert s == [s[0]] + s[1..];
    }
  }

  lemma {:induction false} RetainIncreasing(s: seq<nat>, closed: set<nat>)
    requires Increasing(s)
    ensures Increasing(Retain(s, closed))
  {
    if s != [] {
      var rest := s[1..];
      assert s == [s[0]] + rest;
      SplitIncreasing([s[0]], rest);
      RetainIncreasing(rest, closed);
      assert s[0] in [s[0]];
      forall x, y | x in [s[0]] && y in Retain(rest, closed) ensures x < y {
        RetainHas(rest, closed, y);
      }
      JoinIncreasing([s[0]], Retain(rest, closed));
    }
  }

  lemma RetainKeeps(s: seq<nat>, closed: set<nat>)
    requires Increasing(s)
    ensures Increasing(Retain(s, closed))
    ensures forall id :: id in Retain(s, closed) <==> id in s && id !in closed
  {
    RetainIncreasing(s, closed);
    forall id: nat ensures id in Retain(s, closed) <==> id in s && id !in closed {
      RetainHas(s, closed, id);
    }
  }

  lemma SweepLine(acks: seq<nat>, buffer: seq<nat>, closed: set<nat>)
    requires Increasing(acks + buffer)
    ensures Increasing(acks + Retain(buffer, closed))
    ensures forall id :: id in acks + buffer <==> id in acks + Retain(buffer, closed) || id in Elements(buffer) * closed
    ensures forall id :: id in Elements(buffer) * closed ==> id !in acks + Retain(buffer, closed)
  {
    SplitIncreasing(acks, buffer);
    RetainKeeps(buffer, closed);
    JoinIncreasing(acks, Retain(buffer, closed));
    assert forall id :: id in Elements(buffer) <==> id in buffer;
  }

  // Cancelled messages leave the buffer.
  lemma SweepKeepsInv(l: Link)
    requires Inv(l) && !l.connected
    ensures Inv(Sweep(l))
  {
    var l' := Sweep(l);
    assert Line(l) == l.acks + l.buffer && Line(l') == l.acks + l'.buffer;
    SweepLine(l.acks, l.buffer, l.closed);
  }

  lemma SubmitKeepsInv(l: Link)
    requires Inv(l)
    ensures Inv(l.(buffer := l.buffer + [l.next], next := l.next + 1))
  {
    var l' := l.(buffer := l.buffer + [l.next], next := l.next + 1);
    assert Line(l') == Line(l) + [l.next];
    JoinIncreasing(Line(l), [l.next]);
  }

  lemma BreakKeepsInv(l: Link)
    requires Inv(l)
    ensures Inv(Break(l))
  {
    assert Line(Break(l)) == Line(l);
  }

  lemma SendKeepsInv(l: Link, ok: bool)
    requires Inv(l) && l.connected
    ensures Inv(SendFirst(l, ok))
  {
    var l' := SendFirst(l, ok);
    if l.buffer == [] {
    } else if l.buffer[0] in l.closed {
      DropKeepsInv(l);
    } else if ok {
      assert Line(l') == Line(l);
      assert l'.sent == l'.acks[l'.before..] + l'.pending;
    } else {
      BreakKeepsInv(l);
    }
  }

  lemma DropKeepsInv(l: Link)
    requires Inv(l) && l.buffer != [] && l.buffer[0] in l.closed
    ensures Inv(l.(buffer := l.buffer[1..], dropped := l.dropped + {l.buffer[0]}))
  {
    var front, first, rest := l.acks + l.pending, l.buffer[0], l.buffer[1..];
    var l' := l.(buffer := rest, dropped := l.dropped + {first});
    assert Line(l) == front + ([first] + rest) && Line(l') == front + rest;
    Without(front, first, rest);
  }

  lemma Without(front: seq<nat>, first: nat, rest: seq<nat>)
    requires Increasing(front + ([first] + rest))
    ensures Increasing(front + rest)
    ensures forall id :: id in front + ([first] + rest) <==> id in front + rest || id == first
    ensures first !in front + rest
  {
    SplitIncreasing(front, [first] + rest);
    SplitIncreasing([first], rest);
    assert first in [first] && first in [first] + rest;
    assert forall y :: y in rest ==> y in [first] + rest;
    JoinIncreasing(front, rest);
  }

  lemma ReplyKeepsInv(l: Link, ok: bool)
    requires Inv(l) && l.connected
    ensures Inv(Step(l, Reply(ok)))
  {
    var l' := Step(l, Reply(ok));
    if l.pending == [] || !ok {
      BreakKeepsInv(l);
    } else {
      assert Line(l') == Line(l);
      assert l'.acks[l'.before..] + l'.pending == l.acks[l.before..] + l.pending;
    }
  }

  lemma StepKeepsInv(l: Link, e: Event)
    requires Inv(l) && Possible(l, e)
    ensures Inv(Step(l, e))
  {
    match e {
      case Submit =>
        SubmitKeepsInv(l);
        if !l.connected {
          SweepKeepsInv(l.(buffer := l.buffer + [l.next], next := l.next + 1));
        }
      case Cancel(id) =>
      case Connect =>
        assert l.acks[|l.acks|..] == [];
      case Send(ok) => SendKeepsInv(l, ok);
      case Reply(ok) => ReplyKeepsInv(l, ok);
    }
  }

  function Exec(events: seq<Event>): Link {
    if events == [] then EMPTY else Step(Exec(events[..|events| - 1]), events[|events| - 1])
  }

  predicate Run(events: seq<Event>) {
    events == [] || (Run(events[..|events| - 1]) && Possible(Exec(events[..|events| - 1]), events[|events| - 1]))
  }

  /** The invariant holds after every sequence of submissions, sends, replies, failures, cancellations and reconnects. */
  lemma {:induction false} RunKeepsInv(events: seq<Event>)
    requires Run(events)
    ensures Inv(Exec(events))
  {
    if events != [] {
      RunKeepsInv(events[..|events| - 1]);
      StepKeepsInv(Exec(events[..|events| - 1]), events[|events| - 1]);
    }
  }

  /** So a message that was submitted and never cancelled is acknowledged or held, and not both. */
  lemma NothingLost(events: seq<Event>, id: nat)
    requires Run(events) && id < Exec(events).next && id !in Exec(events).closed
    ensures id in Exec(events).acks <==> id !in Exec(events).pending + Exec(events).buffer
  {
    var l := Exec(events);
    RunKeepsInv(events);
    SplitIncreasing(l.acks, l.pending + l.buffer);
    assert id in Line(l) <==> id in l.acks || id in l.pending + l.buffer;
  }

  /**
   Messages are acknowledged in submission order, what is held is in submission order, and the
   i-th reply on the current connection acknowledges the i-th message sent on it.
   */
  lemma RepliesMatch(events: seq<Event>, i: nat)
    requires Run(events)
    ensures Increasing(Exec(events).acks) && Increasing(Exec(events).pending + Exec(events).buffer)
    ensures Exec(events).before <= |Exec(events).acks|
    ensures Exec(events).connected && i < |Exec(events).acks| - Exec(events).before ==>
            i < |Exec(events).sent| && Exec(events).acks[Exec(events).before + i] == Exec(events).sent[i]
  {
    var l := Exec(events);
    RunKeepsInv(events);
    SplitIncreasing(l.acks, l.pending + l.buffer);
  }

  // ---------------------------------------------------------------- the loops

  // The first n of the live messages have been sent.
  ghost predicate SentSoFar(l0: Link, l: Link, live: seq<nat>, n: nat) {
    && n <= |live| && Retain(l.buffer, l.closed) == live[n..]
    && l.pending == l0.pending + live[..n] && l.sent == l0.sent + live[..n] && l.next == l0.next && l.acks == l0.acks
  }

  // One more turn: a live message is sent, or else the connection breaks with all that was sent in front.
  lemma SendsNext(l0: Link, l: Link, live: seq<nat>, n: nat, ok: bool)
    requires SentSoFar(l0, l, live, n) && l.buffer != []
    ensures l.buffer[0] in l.closed ==> SentSoFar(l0, SendFirst(l, ok), live, n)
    ensures l.buffer[0] !in l.closed ==> n < |live|
    ensures l.buffer[0] !in l.closed && ok ==> SentSoFar(l0, SendFirst(l, ok), live, n + 1)
    ensures l.buffer[0] !in l.closed && !ok ==>
            SendFirst(l, ok).sent == l0.sent + live[..n] && l0.pending + live[..n] <= SendFirst(l, ok).buffer
  {
    if l.buffer[0] !in l.closed {
      assert live[n..] == [live[n]] + live[n + 1..];
      assert live[..n + 1] == live[..n] + [live[n]];
    }
  }

  class Connection {
    var l: Link

    constructor ()
      ensures l == EMPTY && Inv(l)
    {
      l := EMPTY;
    }

    // reliable_sender.rs:188-191 while connecting, 244-247 while connected
    method Accept()
      requires Inv(l) && Possible(l, Submit)
      modifies this
      ensures Inv(l) && l == Step(old(l), Submit) && l.next == old(l).next + 1
      ensures forall id :: id in l.buffer <==> (id in old(l).buffer || id == old(l).next) && (l.connected || id !in l.closed)
    {
      StepKeepsInv(l, Submit);
      forall id: nat ensures id in Retain(l.buffer + [l.next], l.closed) <==> (id in l.buffer || id == l.next) && id !in l.closed {
        RetainHas(l.buffer + [l.next], l.closed, id);
      }
      l := l.(buffer := l.buffer + [l.next], next := l.next + 1);
      if !l.connected {
        l := Sweep(l);
      }
    }

    // reliable_sender.rs:269-275
    method Disconnect()
      requires Inv(l)
      modifies this
      ensures l == Break(old(l)) && Inv(l)
    {
      while l.pending != []
        invariant l.pending + l.buffer == old(l.pending + l.buffer)
        invariant l == old(l).(pending := l.pending, buffer := l.buffer)
        decreases |l.pending|
      {
        var last := |l.pending| - 1;
        assert l.pending == l.pending[..last] + [l.pending[last]];
        l := l.(buffer := [l.pending[last]] + l.buffer, pending := l.pending[..last]);
      }
      assert l.buffer == old(l.pending + l.buffer);
      l := l.(connected := false);
      BreakKeepsInv(old(l));
    }

    /**
     The sending loop, reliable_sender.rs:215-241. The send after the first `works` ones fails. All
     buffered messages that are not cancelled are sent in order, unless there are more than that;
     then the connection breaks after that many, and everything unacknowledged is in front again.
     */
    method SendBuffer(works: nat) returns (ok: bool)
      requires Inv(l) && l.connected
      modifies this
      ensures Inv(l) && l.next == old(l).next && l.acks == old(l).acks
      ensures ok <==> |Retain(old(l).buffer, old(l).closed)| <= works
      ensures ok ==> l.connected && l.buffer == [] && l.pending == old(l).pending + Retain(old(l).buffer, old(l).closed)
      ensures ok ==> l.sent == old(l).sent + Retain(old(l).buffer, old(l).closed)
      ensures !ok ==> !l.connected && l.sent == old(l).sent + Retain(old(l).buffer, old(l).closed)[..works]
      ensures !ok ==> old(l).pending + Retain(old(l).buffer, old(l).closed)[..works] <= l.buffer
    {
      var left: nat := works;
      ghost var live := Retain(l.buffer, l.closed);
      while l.buffer != []
        invariant Inv(l) && l.connected
        invariant left <= works && SentSoFar(old(l), l, live, works - left)
        decreases |l.buffer|
      {
        SendsNext(old(l), l, live, works - left, left > 0);
        var isLive := SendOne(left > 0);
        if isLive {
          if left == 0 {
            return false;
          }
          left := left - 1;
        }
      }
      assert live[works - left..] == [];
      ok := true;
    }

    // One turn of the loop, reliable_sender.rs:218-239.
    method SendOne(works: bool) returns (live: bool)
      requires Inv(l) && l.connected && l.buffer != []
      modifies this
      ensures Inv(l) && l == SendFirst(old(l), works) && (live <==> old(l).buffer[0] !in old(l).closed)
      ensures live && !works ==> !l.connected
      ensures !live || works ==> l.connected && l.buffer == old(l).buffer[1..]
      ensures l.next == old(l).next && l.acks == old(l).acks
    {
      SendKeepsInv(l, works);
      var first := l.buffer[0];
      live := first !in l.closed;
      if !live {
        l := l.(buffer := l.buffer[1..], dropped := l.dropped + {first});
      } else if works {
        l := l.(buffer := l.buffer[1..], pending := l.pending + [first], sent := l.sent + [first]);
      } else {
        Disconnect();
      }
    }

    // reliable_sender.rs:248-266
    method OnReply(ok: bool) returns (acked: seq<nat>)
      requires Inv(l) && l.connected && l.buffer == []
      modifies this
      ensures Inv(l) && l == Step(old(l), Reply(ok)) && l.acks == old(l).acks + acked
      ensures ok && old(l).pending != [] ==> acked == [old(l).pending[0]] && l.connected && l.pending == old(l).pending[1..]
      ensures !ok || old(l).pending == [] ==> acked == [] && !l.connected && l.buffer == old(l).pending
      ensures acked != [] ==> acked == [old(l).sent[|old(l).acks| - old(l).before]]
    {
      acked := [];
      ReplyKeepsInv(l, ok);
      if l.pending == [] || !ok {
        Disconnect();
      } else {
        acked := [l.pending[0]];
        l := l.(acks := l.acks + [l.pending[0]], pending := l.pending[1..]);
      }
    }
  }
}
