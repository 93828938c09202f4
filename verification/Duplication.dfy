/** How often one request can take effect: copies of a request in transit, in a receive loop
    and in a session log never outnumber its transmissions. */
module Duplication {
  import opened Bytes
  import opened InformationElements
  import opened Messages
  import opened Network
  import opened LocalInvariants
  import opened Provenance
  import opened InvariantSteps

  /** Sessions made for the request with this tag. */
  function MadeFor(log: seq<Creation>, tag: Tag): nat {
    if log == [] then 0
    else MadeFor(log[..|log| - 1], tag) + if log[|log| - 1].tag == tag then 1 else 0
  }

  /** The log entries made for the request with this tag. */
  function EntriesFor(log: seq<Creation>, tag: Tag): set<nat> {
    set j: nat | j < |log| && log[j].tag == tag
  }

  lemma {:induction false} MadeForCounts(log: seq<Creation>, tag: Tag)
    ensures MadeFor(log, tag) == |EntriesFor(log, tag)|
  {
    if log != [] {
      var n := |log| - 1;
      MadeForCounts(log[..n], tag);
      assert EntriesFor(log, tag) == EntriesFor(log[..n], tag) + if log[n].tag == tag then {n} else {};
    }
  }

  function HeldFor(rx: Rx, tag: Tag): nat {
    if !rx.Idle? && rx.got.tag == tag then 1 else 0
  }

  /** Copies of the request that have reached node n: being processed, or turned into a session. */
  function ReachedCopies(n: Node, tag: Tag): nat {
    HeldFor(n.rx, tag) + if n.role.UP? then MadeFor(n.role.log, tag) else 0
  }

  function Copies(s: State, a: Addr, q: nat): nat
    requires a in s.nodes && q < |s.nodes[a].calls|
  {
    var c := s.nodes[a].calls[q];
    s.net[RequestDgram(a, q, c)]
    + if c.dst in s.nodes then ReachedCopies(s.nodes[c.dst], Tag(a, q, Asking)) else 0
  }

  ghost predicate CopiesOk(s: State, a: Addr, q: nat)
    requires a in s.nodes && q < |s.nodes[a].calls|
  {
    Numbered(s.nodes[a].calls[q]) ==> Copies(s, a, q) <= s.nodes[a].calls[q].sends
  }

  ghost predicate AllCopiesOk(s: State) {
    !s.duplicating ==>
      forall a, q :: a in s.nodes && 0 <= q < |s.nodes[a].calls| ==> CopiesOk(s, a, q)
  }

  /** A datagram in transit with the tag of a request is that request's datagram. */
  lemma TaggedDgram(s: State, d: Dgram, a: Addr, q: nat)
    requires Inv(s) && d in s.net && d.tag == Tag(a, q, Asking)
    ensures a in s.nodes && q < |s.nodes[a].calls| && Numbered(s.nodes[a].calls[q])
    ensures d == RequestDgram(a, q, s.nodes[a].calls[q])
  {
    assert DgramOk(s.nodes, d);
    MarshalStable(s.nodes[a].calls[q].msg);
  }

  lemma {:induction false} MadeForNone(log: seq<Creation>, tag: Tag)
    requires forall i :: 0 <= i < |log| ==> log[i].tag != tag
    ensures MadeFor(log, tag) == 0
  {
    if log != [] {
      MadeForNone(log[..|log| - 1], tag);
    }
  }

  /** A call without a number has left no copies anywhere. */
  lemma UnnumberedHasNoCopies(s: State, a: Addr, q: nat, b: Addr, d: Dgram)
    requires Inv(s) && a in s.nodes && q < |s.nodes[a].calls| && !Numbered(s.nodes[a].calls[q])
    requires d.tag == Tag(a, q, Asking)
    ensures s.net[d] == 0
    ensures b in s.nodes ==> ReachedCopies(s.nodes[b], Tag(a, q, Asking)) == 0
  {
    if d in s.net {
      TaggedDgram(s, d, a, q);
    }
    if b in s.nodes {
      var n := s.nodes[b];
      assert NodeOk(s.nodes, b, n);
      if !n.rx.Idle? {
        assert GotOk(s.nodes, b, n.rx.got);
      }
      if n.role.UP? {
        forall i | 0 <= i < |n.role.log| ensures n.role.log[i].tag != Tag(a, q, Asking) {
          assert EntryOk(s.nodes, b, n.role.log[i]);
        }
        MadeForNone(n.role.log, Tag(a, q, Asking));
      }
    }
  }

  // ----- one step -----

  lemma DispatchReached(n: Node, tag: Tag)
    requires CanDispatch(n)
    ensures ReachedCopies(NextDispatch(n), tag) <= ReachedCopies(n, tag)
  {
    var n', g := NextDispatch(n), n.rx.got;
    if n.role.UP? && g.msg.h.typ == SESSION_ESTABLISHMENT_REQUEST {
      var log, log' := n.role.log, n'.role.log;
      assert log'[..|log'| - 1] == log && log'[|log|].tag == g.tag;
    }
  }

  /** Only reception brings a copy to a node. */
  lemma StepReached(n: Node, act: Action, tag: Tag)
    requires LocalOk(n) && Enabled(n, act)
    ensures ReachedCopies(Next(n, act), tag)
            <= ReachedCopies(n, tag) + if act.Receive? && act.d.tag == tag then 1 else 0
  {
    if act.Dispatch? {
      DispatchReached(n, tag);
    } else if act.Receive? {
      ReceiveReached(n, act.d, act.stale, tag);
    }
  }

  lemma ReceiveReached(n: Node, d: Dgram, stale: seq<byte>, tag: Tag)
    requires LocalOk(n) && n.rx.Idle? && |d.payload| + |stale| == MAX_INPUT
    ensures ReachedCopies(NextReceive(n, d, stale), tag)
            <= ReachedCopies(n, tag) + if d.tag == tag then 1 else 0
  {
    ReceiveOk(n, d, stale);
  }

  /** Only the call itself emits its request, and counts it. */
  lemma StepEmits(n: Node, a: Addr, act: Action, b: Addr, q: nat, d: Dgram)
    requires LocalOk(n) && Enabled(n, act) && d.tag == Tag(b, q, Asking)
    requires a == b ==> q < |n.calls|
    ensures a != b ==> Emits(n, a, act)[d] == 0
    ensures a == b ==> Emits(n, a, act)[d] <= Next(n, act).calls[q].sends - n.calls[q].sends
  {
    if act.Send? || act.Timer? {
      assert CallOk(n.calls[act.q], n.drawn);
      if a == b && act.q != q {
        assert Next(n, act).calls[q] == n.calls[q];
      }
    } else if a == b {
      QuietSends(n, act, q);
    }
  }

  lemma QuietSends(n: Node, act: Action, q: nat)
    requires LocalOk(n) && Enabled(n, act) && q < |n.calls|
    ensures Next(n, act).calls[q].sends >= n.calls[q].sends
  {
    NextExtends(n, act);
    assert SameCall(n.calls[q], Next(n, act).calls[q]);
  }

  lemma NetStep(s: State, s': State, a: Addr, act: Action, d: Dgram)
    requires StepAt(s, s', a, act)
    ensures s'.net[d] == s.net[d] + Emits(s.nodes[a], a, act)[d] - if act.Receive? && act.d == d then 1 else 0
  {
  }

  lemma NodeStep(s: State, s': State, a: Addr, act: Action, b: Addr, tag: Tag)
    requires Inv(s) && StepAt(s, s', a, act) && b in s.nodes
    ensures ReachedCopies(s'.nodes[b], tag)
            <= ReachedCopies(s.nodes[b], tag) + if act.Receive? && act.d.tag == tag && act.d.dst == b then 1 else 0
  {
    if a == b {
      assert NodeOk(s.nodes, a, s.nodes[a]);
      StepReached(s.nodes[a], act, tag);
    }
  }

  lemma SendStep(s: State, s': State, a: Addr, act: Action, b: Addr, q: nat, d: Dgram)
    requires Inv(s) && StepAt(s, s', a, act) && AllExtend(s.nodes, s'.nodes)
    requires b in s.nodes && q < |s.nodes[b].calls| && d.tag == Tag(b, q, Asking)
    ensures Emits(s.nodes[a], a, act)[d] <= s'.nodes[b].calls[q].sends - s.nodes[b].calls[q].sends
  {
    assert NodeOk(s.nodes, a, s.nodes[a]);
    StepEmits(s.nodes[a], a, act, b, q, d);
  }

  /** A step adds as many copies of a request as it adds transmissions, at most. */
  lemma CopiesAdded(s: State, s': State, a: Addr, act: Action, b: Addr, q: nat, dst: Addr, d: Dgram)
    requires Inv(s) && StepAt(s, s', a, act) && AllExtend(s.nodes, s'.nodes)
    requires b in s.nodes && q < |s.nodes[b].calls| && d.tag == Tag(b, q, Asking) && d.dst == dst
    requires act.Receive? && act.d.tag == d.tag ==> act.d == d
    ensures dst in s.nodes ==>
              s'.net[d] + ReachedCopies(s'.nodes[dst], d.tag) - s.net[d] - ReachedCopies(s.nodes[dst], d.tag)
              <= s'.nodes[b].calls[q].sends - s.nodes[b].calls[q].sends
    ensures s'.net[d] - s.net[d] <= s'.nodes[b].calls[q].sends - s.nodes[b].calls[q].sends
  {
    NetStep(s, s', a, act, d);
    SendStep(s, s', a, act, b, q, d);
    if dst in s.nodes {
      NodeStep(s, s', a, act, dst, d.tag);
    }
  }

  lemma CopiesStep(s: State, s': State, a: Addr, act: Action, b: Addr, q: nat)
    requires Inv(s) && StepAt(s, s', a, act) && AllExtend(s.nodes, s'.nodes)
    requires b in s.nodes && q < |s.nodes[b].calls| && CopiesOk(s, b, q)
    ensures CopiesOk(s', b, q)
  {
    var c, c' := s.nodes[b].calls[q], s'.nodes[b].calls[q];
    assert Extends(s.nodes[b], s'.nodes[b]) && SameCall(c, c');
    if Numbered(c') {
      var d := RequestDgram(b, q, c');
      if act.Receive? && act.d.tag == d.tag {
        TaggedDgram(s, act.d, b, q);
      }
      CopiesAdded(s, s', a, act, b, q, c.dst, d);
      if !Numbered(c) {
        UnnumberedHasNoCopies(s, b, q, c.dst, d);
      }
    }
  }

  lemma NewCallsStarted(n: Node, act: Action, q: nat)
    requires LocalOk(n) && Enabled(n, act) && |n.calls| <= q < |Next(n, act).calls|
    ensures Next(n, act).calls[q].pc.Started?
  {
    if act.Dispatch? {
      DispatchOk(n);
    } else if act.Receive? {
      ReceiveOk(n, act.d, act.stale);
    }
  }

  lemma NewCallCopies(s: State, s': State, a: Addr, act: Action, b: Addr, q: nat)
    requires Inv(s) && StepAt(s, s', a, act)
    requires b in s'.nodes && |s.nodes[b].calls| <= q < |s'.nodes[b].calls|
    ensures CopiesOk(s', b, q)
  {
    assert NodeOk(s.nodes, a, s.nodes[a]);
    NewCallsStarted(s.nodes[a], act, q);
  }

  lemma StepAtKeepsCopies(s: State, s': State, a: Addr, act: Action)
    requires Inv(s) && StepAt(s, s', a, act) && AllCopiesOk(s)
    ensures AllCopiesOk(s')
  {
    StepExtends(s, s', a, act);
    if !s.duplicating {
      forall b, q | b in s'.nodes && 0 <= q < |s'.nodes[b].calls| ensures CopiesOk(s', b, q) {
        if q < |s.nodes[b].calls| {
          CopiesStep(s, s', a, act, b, q);
        } else {
          NewCallCopies(s, s', a, act, b, q);
        }
      }
    }
  }

  lemma LossKeepsCopies(s: State, s': State, d: Dgram)
    requires AllCopiesOk(s) && Weathers(s, s', d)
    ensures AllCopiesOk(s')
  {
    if !s'.duplicating {
      forall b, q | b in s'.nodes && 0 <= q < |s'.nodes[b].calls| ensures CopiesOk(s', b, q) {
        assert CopiesOk(s, b, q);
      }
    }
  }

  lemma StepKeepsCopies(s: State, s': State)
    requires Inv(s) && Step(s, s') && AllCopiesOk(s)
    ensures AllCopiesOk(s')
  {
    if d :| Weathers(s, s', d) {
      LossKeepsCopies(s, s', d);
    } else {
      var a, act :| StepAt(s, s', a, act);
      StepAtKeepsCopies(s, s', a, act);
    }
  }

  lemma {:induction false} RunCopies(run: seq<State>, i: nat)
    requires Run(run) && i < |run|
    ensures AllCopiesOk(run[i])
  {
    if i == 0 {
      assert forall a :: a in run[0].nodes ==> run[0].nodes[a].calls == [];
    } else {
      RunCopies(run, i - 1);
      RunInv(run, i - 1);
      assert StepOf(run, i - 1);
      StepKeepsCopies(run[i - 1], run[i]);
    }
  }
}
