/** The step system does what the sequential transport code does (pkg/protocol/transport.go): its
    waiting calls follow the retransmission loop, its receive loop the dispatch of one message. */
module Refinement {
  import opened Bytes
  import opened Messages
  import opened Transports
  import opened UserPlane
  import opened Network
  import opened LocalInvariants

  /** A waiting call after one event of the select statement. */
  function Observe(n: Node, c: Call, e: Event): Call {
    match e
    case ContextDone => CallAfter(n, c, Close(0))
    case ResponseReady(m) => CallAfter(n, c.(chan := Some(Got(c.dst, m, Tag(0, 0, Asking)))), Take(0))
    case TimerFires(sendOk) => CallAfter(n, c, Timer(0, sendOk))
  }

  function ObserveAll(n: Node, c: Call, events: seq<Event>): Call
    decreases |events|
  {
    if events == [] || !c.pc.Waiting? then c else ObserveAll(n, Observe(n, c, events[0]), events[1..])
  }

  /** The waiting loop by steps, for every sequence of events: as many retransmissions, the same
      outcome and the same response as the loop that Transmit is proved to follow. */
  lemma {:induction false} WaitsAlike(n: Node, c: Call, events: seq<Event>)
    requires c.pc.Waiting? && c.answer.None? && |EncodeMessage(c.msg)| <= MAX_DATAGRAM
    ensures var c' := ObserveAll(n, c, events);
            var (outcome, i) := Awaited(events, c.attempts, c.limit);
            && c'.sends == c.sends + i && c'.msg == c.msg && c'.dst == c.dst
            && c'.pc == (if outcome.StillWaiting? then Waiting else Leaving)
            && (outcome.Replied? <==> c'.answer.Some?) && (outcome.Replied? ==> c'.answer.value.msg == outcome.m)
    decreases |events|
  {
    if events != [] && Observe(n, c, events[0]).pc.Waiting? {
      WaitsAlike(n, Observe(n, c, events[0]), events[1..]);
    }
  }

  /** A step of a call puts its request on the network, for its destination, exactly when it counts
      a transmission; no other step of a call puts anything there. */
  lemma TransmissionsCounted(n: Node, a: Addr, act: Action)
    requires LocalOk(n) && Enabled(n, act) && IsCallAction(act)
    ensures var c, c' := n.calls[act.q], CallAfter(n, n.calls[act.q], act);
            && (c'.sends == c.sends || c'.sends == c.sends + 1)
            && (c'.sends == c.sends ==> Emits(n, a, act) == multiset{})
            && (c'.sends == c.sends + 1 ==>
                  exists d :: Emits(n, a, act) == multiset{d} && d.src == a && d.dst == c.dst && d.payload == EncodeMessage(c.msg))
  {
    var c := n.calls[act.q];
    assert CallOk(c, n.drawn);
    if CallAfter(n, c, act).sends == c.sends + 1 {
      assert Emits(n, a, act) == multiset{RequestDgram(a, act.q, c)};
    }
  }

  /** A message whose number is pending goes to that waiter, if nothing is there yet, and to nobody
      else otherwise; the node's state stays as it is. */
  lemma HandedAlike(n: Node)
    requires LocalOk(n) && n.rx.Held? && n.rx.got.msg.h.seqNum in n.pending
    ensures NextLookup(n).rx.ForWaiter? && NextLookup(n).rx.call < |n.calls| == |NextLookup(n).calls|
    ensures var q := n.pending[n.rx.got.msg.h.seqNum];
            var n' := NextHand(NextLookup(n));
            && n'.rx.Idle? && n'.role == n.role && n'.pending == n.pending && q < |n.calls| == |n'.calls|
            && n'.calls[q] == (if n.calls[q].chan.None? then n.calls[q].(chan := Some(n.rx.got)) else n.calls[q])
            && (forall r :: 0 <= r < |n.calls| && r != q ==> n'.calls[r] == n.calls[r])
            && n'.counts.handed == n.counts.handed + (if n.calls[q].chan.None? then 1 else 0)
            && n'.counts.dropped == n.counts.dropped + (if n.calls[q].chan.None? then 0 else 1)
  {
  }

  /** Any other message is handled, if the node has a handler for its type, and dropped otherwise;
      no waiter sees it. */
  lemma HandledAlike(n: Node)
    requires LocalOk(n) && n.rx.Held? && n.rx.got.msg.h.seqNum !in n.pending && CanDispatch(NextLookup(n))
    ensures var types: set<byte> := if n.role.CP? then {1, 5, 9, 56} else {1, 50, 52, 54};
            var n' := NextDispatch(NextLookup(n));
            && n'.rx.Idle? && n'.calls == n.calls && n'.pending == n.pending
            && (n.rx.got.msg.h.typ !in types ==> n'.role == n.role && n'.counts.dropped == n.counts.dropped + 1)
            && (n.rx.got.msg.h.typ in types ==> n'.counts.handled == n.counts.handled + 1)
  {
  }
}
