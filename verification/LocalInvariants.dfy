/** What every step keeps true of one node by itself: numbering of calls, transmission counts,
    the pending table and the accounting of received messages. */
module LocalInvariants {
  import opened Bytes
  import opened InformationElements
  import opened Messages
  import opened Transports
  import opened UserPlane
  import opened Network

  /** The progress of one call, given how many numbers its node has drawn. */
  ghost predicate CallOk(c: Call, drawn: nat) {
    && 0 <= c.sends <= Max(1, c.limit)
    && (c.pc.Waiting? ==> c.sends == c.attempts + 1)
    && (Unsent(c) ==> c.sends == 0 && c.attempts == 0)
    && (Numbered(c) ==> c.k < drawn && c.msg == RequestMsg(c.job, SeqOf(c.k)))
    && (c.chan.Some? ==> Numbered(c) && c.chan.value.msg.h.seqNum == SeqOf(c.k))
    && (c.answer.Some? ==> (c.pc.Leaving? || Ended(c)) && c.answer.value.msg.h.seqNum == SeqOf(c.k))
    && (c.pc.Applied? || c.pc.Done? ==> AcceptedCall(c) && (c.job.Create? || c.job.Remove?))
  }

  predicate Unsent(c: Call) {
    c.pc.Started? || c.pc.Allocated? || c.pc.Drawn? || c.pc.Registered?
  }

  predicate Ended(c: Call) {
    c.pc.Returned? || c.pc.Applied? || c.pc.Done? || c.pc.Failed?
  }

  ghost predicate CallsOk(n: Node) {
    forall q :: 0 <= q < |n.calls| ==> CallOk(n.calls[q], n.drawn)
  }

  ghost predicate DrawsDistinct(n: Node) {
    forall q, r :: 0 <= q < r < |n.calls| && Numbered(n.calls[q]) && Numbered(n.calls[r])
      ==> n.calls[q].k != n.calls[r].k
  }

  /** A pending key leads to a call with that number. */
  ghost predicate PendingOk(n: Node) {
    forall s :: s in n.pending ==>
      n.pending[s] < |n.calls| && Numbered(n.calls[n.pending[s]]) && SeqOf(n.calls[n.pending[s]].k) == s
  }

  ghost predicate RxOk(n: Node) {
    n.rx.ForWaiter? ==>
      n.rx.call < |n.calls| && Numbered(n.calls[n.rx.call])
      && n.rx.got.msg.h.seqNum == SeqOf(n.calls[n.rx.call].k)
  }

  /** Every received message is handed over, handled or dropped, once. */
  ghost predicate CountsOk(n: Node) {
    n.counts.received == n.counts.handed + n.counts.handled + n.counts.dropped + if n.rx.Idle? then 0 else 1
  }

  ghost predicate LocalOk(n: Node) {
    && n.seqNum == SeqOf(n.drawn)
    && CallsOk(n) && DrawsDistinct(n) && PendingOk(n) && RxOk(n) && CountsOk(n)
  }

  lemma CallStepOk(n: Node, c: Call, act: Action)
    requires n.seqNum == SeqOf(n.drawn) && CallOk(c, n.drawn)
    requires IsCallAction(act) && CanCall(n, c, act)
    ensures CallOk(CallAfter(n, c, act), if act.Draw? then n.drawn + 1 else n.drawn)
  {
  }

  /** A call keeps its number once it has one, and a drawn number is new. */
  lemma CallStepNumbers(n: Node, c: Call, act: Action)
    requires IsCallAction(act) && CanCall(n, c, act)
    requires CallOk(c, n.drawn)
    ensures var c' := CallAfter(n, c, act);
            && (Numbered(c) ==> Numbered(c') && c'.k == c.k && c'.msg == c.msg)
            && (Numbered(c') && !Numbered(c) ==> c'.k == n.drawn)
            && c'.job == c.job && c'.dst == c.dst && c'.limit == c.limit && c'.sends >= c.sends
  {
  }

  /** Only Register and Leave change which calls own a key. */
  lemma CallStepLive(n: Node, c: Call, act: Action)
    requires IsCallAction(act) && CanCall(n, c, act) && !act.Register? && !act.Leave?
    ensures Live(CallAfter(n, c, act)) <==> Live(c)
    ensures Live(c) ==> CallAfter(n, c, act).msg == c.msg
  {
  }

  lemma CallStepPending(n: Node, act: Action)
    requires LocalOk(n) && Enabled(n, act) && IsCallAction(act)
    ensures PendingOk(Next(n, act)) && RxOk(Next(n, act))
  {
    var c := n.calls[act.q];
    assert CallOk(c, n.drawn);
    CallStepNumbers(n, c, act);
    PendingReplace(n, act.q, CallAfter(n, c, act), Next(n, act), act);
  }

  lemma PendingReplace(n: Node, q: nat, c': Call, n': Node, act: Action)
    requires LocalOk(n) && q < |n.calls| && n'.calls == n.calls[q := c'] && n'.rx == n.rx
    requires n'.pending == PendingAfter(n.pending, q, n.calls[q], act)
    requires Numbered(n.calls[q]) ==> Numbered(c') && c'.k == n.calls[q].k
    requires act.Register? ==> Numbered(n.calls[q]) && n.calls[q].msg.h.seqNum == SeqOf(n.calls[q].k)
    ensures PendingOk(n') && RxOk(n')
  {
    forall s | s in n'.pending
      ensures n'.pending[s] < |n'.calls| && Numbered(n'.calls[n'.pending[s]]) && SeqOf(n'.calls[n'.pending[s]].k) == s
    {
      if !(act.Register? && s == n.calls[q].msg.h.seqNum) {
        assert s in n.pending && n'.pending[s] == n.pending[s];
      }
    }
  }

  lemma CallStepDistinct(n: Node, act: Action)
    requires LocalOk(n) && Enabled(n, act) && IsCallAction(act)
    ensures CallsOk(Next(n, act)) && DrawsDistinct(Next(n, act))
  {
    var n', c := Next(n, act), n.calls[act.q];
    assert CallOk(c, n.drawn);
    CallStepOk(n, c, act);
    CallStepNumbers(n, c, act);
    forall r | 0 <= r < |n'.calls| ensures CallOk(n'.calls[r], n'.drawn) {
      assert CallOk(n.calls[r], n.drawn);
    }
    forall r, t | 0 <= r < t < |n'.calls| && Numbered(n'.calls[r]) && Numbered(n'.calls[t])
      ensures n'.calls[r].k != n'.calls[t].k
    {
      assert CallOk(n.calls[r], n.drawn) && CallOk(n.calls[t], n.drawn);
    }
  }

  lemma AddCallOk(n: Node, c: Call)
    requires LocalOk(n) && CallOk(c, n.drawn) && !Numbered(c)
    ensures LocalOk(n.(calls := n.calls + [c]))
  {
    var n' := n.(calls := n.calls + [c]);
    assert forall r :: 0 <= r < |n.calls| ==> n'.calls[r] == n.calls[r];
    assert n'.calls[|n.calls|] == c;
  }

  lemma ReceiveOk(n: Node, d: Dgram, stale: seq<byte>)
    requires LocalOk(n) && n.rx.Idle? && |d.payload| + |stale| == MAX_INPUT
    ensures LocalOk(NextReceive(n, d, stale))
    ensures var n' := NextReceive(n, d, stale);
            n'.calls == n.calls && n'.role == n.role && n'.pending == n.pending
  {
    match DecodeMessage(d.payload + stale, |d.payload|)
    case Decoded(m) =>
      var n' := n.(rx := Held(Got(d.src, m, d.tag)), counts := n.counts.(received := n.counts.received + 1));
      assert CallsOk(n') && DrawsDistinct(n') && PendingOk(n');
    case Rejected =>
    case Crashed =>
  }

  lemma LookupOk(n: Node)
    requires LocalOk(n) && n.rx.Held?
    ensures LocalOk(NextLookup(n))
  {
    var n' := NextLookup(n);
    assert CallsOk(n') && DrawsDistinct(n') && PendingOk(n');
  }

  lemma HandOk(n: Node)
    requires LocalOk(n) && n.rx.ForWaiter?
    ensures LocalOk(NextHand(n))
  {
    var n', q := NextHand(n), n.rx.call;
    assert CallOk(n.calls[q], n.drawn);
    assert CallOk(n'.calls[q], n'.drawn);
    assert forall r :: 0 <= r < |n.calls| && r != q ==> n'.calls[r] == n.calls[r];
    assert n'.calls[q].k == n.calls[q].k && n'.calls[q].pc == n.calls[q].pc;
  }

  lemma DispatchOk(n: Node)
    requires LocalOk(n) && CanDispatch(n)
    ensures LocalOk(NextDispatch(n))
    ensures NextDispatch(n).calls == n.calls && NextDispatch(n).pending == n.pending
  {
    var n' := NextDispatch(n);
    assert n'.calls == n.calls && n'.pending == n.pending && n'.drawn == n.drawn && n'.seqNum == n.seqNum;
    assert CallsOk(n') && DrawsDistinct(n') && PendingOk(n');
  }

  // ----- the shape of a step -----

  /** What a step that is not a step of a call may change: associations, channels, and calls
      that have only started. */
  ghost predicate NonCall(n: Node, n': Node, act: Action) {
    && |n.calls| <= |n'.calls|
    && (forall q :: 0 <= q < |n.calls| ==> n'.calls[q] == n.calls[q].(chan := n'.calls[q].chan))
    && (forall q :: |n.calls| <= q < |n'.calls| ==> n'.calls[q].pc.Started?)
    && (forall q {:trigger BegunBy(n.role, n'.calls[q], act)} :: |n.calls| <= q < |n'.calls| ==>
          BegunBy(n.role, n'.calls[q], act))
    && (n.role.CP? <==> n'.role.CP?)
    && (n.role.CP? ==> n'.role.cp == n.role.cp.(assocs := n'.role.cp.assocs))
  }

  /** A creation goes to the address of its association. A deletion starts on a session of the
      table and takes the remote SEID from it. Both are sent up to RetransmitN1 times; a user
      plane asks for an association in its own name, from the control plane it is set up with. */
  ghost predicate BegunBy(role: Role, c: Call, act: Action) {
    match c.job
    case Create(id, rules) =>
      && act.BeginCreate? && act.nodeId == id && act.rules == rules
      && role.CP? && id in role.cp.assocs && c.dst == role.cp.assocs[id] && c.limit == role.cp.n1
    case Remove(target, remote) =>
      && act.BeginRemove? && act.target == target
      && role.CP? && target in role.cp.sessions && remote == role.cp.sessions[target].remoteSeid && c.limit == role.cp.n1
    case Heartbeat(ts) =>
      && act.BeginHeartbeat? && c.limit == 3
      && if role.CP? then ts == role.cp.ts else ts == role.upNodeTs && c.dst == role.cpAddr
    case Associate(id, ts) =>
      && act.BeginAssociate? && c.limit == 3
      && role.UP? && (id, ts, c.dst) == (role.upNodeId, role.upNodeTs, role.cpAddr)
  }

  /** A step of a call changes its own record and the control-plane tables. */
  ghost predicate OfCall(n: Node, n': Node, act: Action)
    requires IsCallAction(act)
  {
    && act.q < |n.calls| && CanCall(n, n.calls[act.q], act)
    && n'.calls == n.calls[act.q := CallAfter(n, n.calls[act.q], act)]
    && n'.role == RoleAfter(n.role, n.calls[act.q], act)
  }

  ghost predicate Shaped(n: Node, n': Node, act: Action) {
    if IsCallAction(act) then OfCall(n, n', act) else NonCall(n, n', act)
  }

  /** No handler of the control plane touches anything but its associations. */
  lemma HandleKeepsCp(role: Role, g: Got)
    requires role.UP? ==> HasRoom(role.up.sessions)
    ensures Handle(role, g).Effect? ==> (Handle(role, g).role.CP? <==> role.CP?)
    ensures var e := Handle(role, g);
            e.Effect? && role.CP? ==> e.role.cp == role.cp.(assocs := e.role.cp.assocs)
  {
  }

  lemma StepShape(n: Node, act: Action)
    requires LocalOk(n) && Enabled(n, act)
    ensures Shaped(n, Next(n, act), act)
    ensures !IsBeginAction(act) ==> |Next(n, act).calls| == |n.calls|
  {
    if act.Dispatch? {
      DispatchOk(n);
      HandleKeepsCp(n.role, n.rx.got);
    } else if act.Receive? {
      ReceiveOk(n, act.d, act.stale);
    }
  }

  lemma LocalStep(n: Node, act: Action)
    requires LocalOk(n) && Enabled(n, act)
    ensures LocalOk(Next(n, act))
  {
    if IsCallAction(act) {
      SeqAdvances(n.drawn);
      CallStepPending(n, act);
      CallStepDistinct(n, act);
    } else if IsBeginAction(act) {
      AddCallOk(n, CallBegun(n.role, act));
    } else {
      match act
      case Receive(d, stale) => ReceiveOk(n, d, stale);
      case Lookup => LookupOk(n);
      case Hand => HandOk(n);
      case Dispatch(_) => DispatchOk(n);
    }
  }

  // ----- ownership of pending keys -----

  /** No two calls inside SendRequest hold the same number. */
  ghost predicate NoClash(n: Node) {
    forall q, r :: 0 <= q < r < |n.calls| && InFlight(n.calls[q]) && InFlight(n.calls[r])
      ==> SeqOf(n.calls[q].k) != SeqOf(n.calls[r].k)
  }

  /** Fewer than 0xFFFFFF numbers are drawn during the life of any request. */
  ghost predicate ShortLives(n: Node) {
    forall q :: 0 <= q < |n.calls| && InFlight(n.calls[q]) ==> n.drawn - n.calls[q].k <= SEQ_SPAN
  }

  lemma ShortLivesDoNotClash(n: Node)
    requires LocalOk(n) && ShortLives(n)
    ensures NoClash(n)
  {
    forall q, r | 0 <= q < r < |n.calls| && InFlight(n.calls[q]) && InFlight(n.calls[r])
      ensures SeqOf(n.calls[q].k) != SeqOf(n.calls[r].k)
    {
      assert CallOk(n.calls[q], n.drawn) && CallOk(n.calls[r], n.drawn);
      var i, j := n.calls[q].k, n.calls[r].k;
      if i < j { SeqDistinct(i, j); } else { SeqDistinct(j, i); }
    }
  }

  /** The pending table is exactly the table of the calls between registration and return:
      every key has one owner, every owner its key. */
  ghost predicate Owned(n: Node) {
    && (forall s :: s in n.pending ==> n.pending[s] < |n.calls| && Live(n.calls[n.pending[s]]))
    && (forall q :: 0 <= q < |n.calls| && Live(n.calls[q]) ==>
          n.calls[q].msg.h.seqNum in n.pending && n.pending[n.calls[q].msg.h.seqNum] == q)
  }

  lemma OwnedStep(n: Node, act: Action)
    requires LocalOk(n) && Enabled(n, act) && Owned(n) && NoClash(n)
    ensures Owned(Next(n, act))
  {
    if act.Leave? || act.Register? {
      OwnedKeyStep(n, act);
    } else if IsCallAction(act) {
      OwnedCallStep(n, act);
    } else if IsBeginAction(act) {
      OwnedAdd(n, CallBegun(n.role, act));
    } else {
      match act
      case Receive(d, stale) => ReceiveOk(n, d, stale);
      case Lookup =>
      case Hand => OwnedFrame(n, NextHand(n), n.rx.call);
      case Dispatch(_) => DispatchOk(n);
    }
  }

  lemma OwnedCallStep(n: Node, act: Action)
    requires LocalOk(n) && Enabled(n, act) && Owned(n)
    requires IsCallAction(act) && !act.Leave? && !act.Register?
    ensures Owned(Next(n, act))
  {
    var c := n.calls[act.q];
    CallStepLive(n, c, act);
    OwnedReplace(n, act.q, CallAfter(n, c, act), NextCall(n, act.q, c, act));
  }

  lemma OwnedAdd(n: Node, c: Call)
    requires Owned(n) && !Live(c)
    ensures Owned(n.(calls := n.calls + [c]))
  {
    var n' := n.(calls := n.calls + [c]);
    assert forall r :: 0 <= r < |n.calls| ==> n'.calls[r] == n.calls[r];
  }

  lemma OwnedReplace(n: Node, q: nat, c': Call, n': Node)
    requires Owned(n) && q < |n.calls| && n'.calls == n.calls[q := c'] && n'.pending == n.pending
    requires Live(c') <==> Live(n.calls[q])
    requires Live(n.calls[q]) ==> c'.msg == n.calls[q].msg
    ensures Owned(n')
  {
    OwnedFrame(n, n', q);
  }

  lemma OwnedFrame(n: Node, n': Node, q: nat)
    requires Owned(n) && q < |n.calls| && |n'.calls| == |n.calls| && n'.pending == n.pending
    requires forall r :: 0 <= r < |n.calls| && r != q ==> n'.calls[r] == n.calls[r]
    requires Live(n'.calls[q]) <==> Live(n.calls[q])
    requires Live(n.calls[q]) ==> n'.calls[q].msg == n.calls[q].msg
    ensures Owned(n')
  {
  }

  lemma OwnedKeyStep(n: Node, act: Action)
    requires LocalOk(n) && Enabled(n, act) && Owned(n) && NoClash(n)
    requires act.Leave? || act.Register?
    ensures Owned(Next(n, act))
  {
    var n', q := Next(n, act), act.q;
    var key := n.calls[q].msg.h.seqNum;
    assert CallOk(n.calls[q], n.drawn);
    forall r | 0 <= r < |n.calls| && r != q && Live(n.calls[r])
      ensures n.calls[r].msg.h.seqNum != key
    {
      assert CallOk(n.calls[r], n.drawn);
    }
    forall s | s in n'.pending ensures n'.pending[s] < |n'.calls| && Live(n'.calls[n'.pending[s]]) {
      if s != key {
        assert n'.pending[s] == n.pending[s];
        assert n.pending[s] != q by {
          assert SeqOf(n.calls[n.pending[s]].k) == s;
        }
      }
    }
  }

  /** Returning removes the call's own key and no other. */
  lemma LeaveRemovesOwnKey(n: Node, q: nat)
    requires LocalOk(n) && Owned(n) && NoClash(n) && Enabled(n, Leave(q))
    ensures n.pending[n.calls[q].msg.h.seqNum] == q
    ensures Next(n, Leave(q)).pending == map s | s in n.pending && n.pending[s] != q :: n.pending[s]
  {
    var key := n.calls[q].msg.h.seqNum;
    assert CallOk(n.calls[q], n.drawn);
    assert forall s :: s in n.pending && n.pending[s] == q ==> s == key;
  }

  // ----- numbers of one's own -----

  /** No other request of the node was ever given the number of call q. */
  ghost predicate NumberIsOwn(n: Node, q: nat)
    requires q < |n.calls|
  {
    forall r :: 0 <= r < |n.calls| && r != q && Numbered(n.calls[r])
      ==> n.calls[r].msg.h.seqNum != n.calls[q].msg.h.seqNum
  }

  /** So it is for every request until the counter wraps. */
  lemma OwnUntilWrap(n: Node, q: nat)
    requires LocalOk(n) && n.drawn <= SEQ_SPAN && q < |n.calls| && Numbered(n.calls[q])
    ensures NumberIsOwn(n, q)
  {
    assert CallOk(n.calls[q], n.drawn);
    forall r | 0 <= r < |n.calls| && r != q && Numbered(n.calls[r])
      ensures n.calls[r].msg.h.seqNum != n.calls[q].msg.h.seqNum
    {
      assert CallOk(n.calls[r], n.drawn);
      var i, j := n.calls[q].k, n.calls[r].k;
      if i < j { SeqDistinct(i, j); } else { SeqDistinct(j, i); }
    }
  }
}
