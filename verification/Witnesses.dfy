/** Reachable states: the steps of a run one by one, and an exchange of request and answer. */
module Witnesses {
  import opened Bytes
  import opened InformationElements
  import opened Messages
  import opened Transports
  import opened UserPlane
  import opened Network
  import opened Provenance
  import opened InvariantSteps

  ghost predicate EndsIn(run: seq<State>, s: State) {
    Run(run) && run[|run| - 1] == s
  }

  ghost predicate Reachable(s: State) {
    exists run :: EndsIn(run, s)
  }

  lemma ReachInit(s: State)
    requires Init(s)
    ensures Reachable(s)
  {
    assert EndsIn([s], s);
  }

  lemma ReachStep(s: State, s': State)
    requires Reachable(s) && Step(s, s')
    ensures Reachable(s')
  {
    var run :| EndsIn(run, s);
    var run' := run + [s'];
    forall i: nat | i + 1 < |run'| ensures StepOf(run', i) {
      if i + 1 < |run| {
        assert StepOf(run, i);
      }
    }
    assert EndsIn(run', s');
  }

  lemma ReachInv(s: State)
    requires Reachable(s)
    ensures Inv(s)
  {
    var run :| EndsIn(run, s);
    EndInv(run, s);
  }

  lemma EndInv(run: seq<State>, s: State)
    requires EndsIn(run, s)
    ensures Inv(s)
  {
    RunInv(run, |run| - 1);
  }

  /** A reachable state may go on with any enabled step. */
  lemma Go(s: State, a: Addr, act: Action) returns (s': State)
    requires Reachable(s) && a in s.nodes && Enabled(s.nodes[a], act)
    requires act.Receive? ==> act.d in s.net && act.d.dst == a
    ensures s.nodes[a].seqNum < 0xFFFF_FFFF
    ensures Reachable(s') && s'.duplicating == s.duplicating
    ensures s'.nodes == s.nodes[a := Next(s.nodes[a], act)]
    ensures s'.net == (if act.Receive? then s.net - multiset{act.d} else s.net) + Emits(s.nodes[a], a, act)
  {
    ReachInv(s);
    assert NodeOk(s.nodes, a, s.nodes[a]);
    s' := State(s.nodes[a := Next(s.nodes[a], act)],
                (if act.Receive? then s.net - multiset{act.d} else s.net) + Emits(s.nodes[a], a, act), s.duplicating);
    assert StepAt(s, s', a, act);
    ReachStep(s, s');
  }

  /** s' is s with node a replaced by n'. */
  ghost predicate Becomes(s: State, s': State, a: Addr, n': Node) {
    Reachable(s') && s'.duplicating == s.duplicating && s'.nodes == s.nodes[a := n']
  }

  // ----- asking -----

  function Asked(n: Node, c: Call): Call {
    c.(k := n.drawn, msg := RequestMsg(c.job, n.seqNum), sends := 1, pc := Waiting)
  }

  lemma Draws(s: State, a: Addr, q: nat) returns (s': State)
    requires Reachable(s) && a in s.nodes && q < |s.nodes[a].calls|
    requires var c := s.nodes[a].calls[q]; c.pc.Allocated? || (c.pc.Started? && !c.job.Create?)
    ensures s.nodes[a].seqNum < 0xFFFF_FFFF && s'.net == s.net
    ensures var n := s.nodes[a];
            Becomes(s, s', a, n.(seqNum := NextSeq(n.seqNum), drawn := n.drawn + 1,
              calls := n.calls[q := n.calls[q].(k := n.drawn, msg := RequestMsg(n.calls[q].job, n.seqNum), pc := Drawn)]))
  {
    s' := Go(s, a, Draw(q));
  }

  lemma Registers(s: State, a: Addr, q: nat) returns (s': State)
    requires Reachable(s) && a in s.nodes && q < |s.nodes[a].calls| && s.nodes[a].calls[q].pc.Drawn?
    ensures s'.net == s.net
    ensures var n := s.nodes[a];
            Becomes(s, s', a, n.(pending := n.pending[n.calls[q].msg.h.seqNum := q],
              calls := n.calls[q := n.calls[q].(pc := Registered)]))
  {
    s' := Go(s, a, Register(q));
  }

  lemma Sends(s: State, a: Addr, q: nat, ok: bool) returns (s': State)
    requires Reachable(s) && a in s.nodes && q < |s.nodes[a].calls| && s.nodes[a].calls[q].pc.Registered?
    ensures var n, sent := s.nodes[a], Sendable(s.nodes[a].calls[q].msg, ok);
            && Becomes(s, s', a, n.(calls := n.calls[q :=
                 if sent then n.calls[q].(sends := 1, pc := Waiting) else n.calls[q].(pc := Leaving)]))
            && s'.net == s.net + if sent then multiset{RequestDgram(a, q, n.calls[q])} else multiset{}
  {
    s' := Go(s, a, Send(q, ok));
  }

  lemma Leaves(s: State, a: Addr, q: nat) returns (s': State)
    requires Reachable(s) && a in s.nodes && q < |s.nodes[a].calls| && s.nodes[a].calls[q].pc.Leaving?
    ensures s'.net == s.net
    ensures var n := s.nodes[a];
            Becomes(s, s', a, n.(pending := n.pending - {n.calls[q].msg.h.seqNum},
              calls := n.calls[q := n.calls[q].(pc := Returned)]))
  {
    s' := Go(s, a, Leave(q));
  }

  /** Number, key, first transmission. */
  lemma Asks(s: State, a: Addr, q: nat) returns (s': State)
    requires Reachable(s) && a in s.nodes && q < |s.nodes[a].calls|
    requires var c := s.nodes[a].calls[q]; c.pc.Allocated? || (c.pc.Started? && !c.job.Create?)
    requires Sendable(RequestMsg(s.nodes[a].calls[q].job, s.nodes[a].seqNum), true)
    ensures s.nodes[a].seqNum < 0xFFFF_FFFF
    ensures var n := s.nodes[a];
            && Becomes(s, s', a, n.(seqNum := NextSeq(n.seqNum), drawn := n.drawn + 1, pending := n.pending[n.seqNum := q],
                 calls := n.calls[q := Asked(n, n.calls[q])]))
            && s'.net == s.net + multiset{RequestDgram(a, q, Asked(n, n.calls[q]))}
  {
    var n := s.nodes[a];
    var s1 := Draws(s, a, q);
    var s2 := Registers(s1, a, q);
    s' := Sends(s2, a, q, true);
    assert s'.nodes[a].calls == n.calls[q := Asked(n, n.calls[q])];
  }

  // ----- being served -----

  lemma Receives(s: State, a: Addr, d: Dgram) returns (s': State)
    requires Reachable(s) && a in s.nodes && s.nodes[a].rx.Idle? && d in s.net && d.dst == a
    ensures s'.net == s.net - multiset{d} && a in s'.nodes
    ensures var n := s.nodes[a];
            Becomes(s, s', a, n.(rx := Held(Got(d.src, d.msg, d.tag)), counts := s'.nodes[a].counts))
  {
    ReachInv(s);
    assert DgramOk(s.nodes, d);
    var stale: seq<byte> := seq(MAX_INPUT - |d.payload|, _ => 0);
    ReceiveDecodes(s.nodes, d, stale);
    s' := Go(s, a, Receive(d, stale));
  }

  lemma LooksUp(s: State, a: Addr) returns (s': State)
    requires Reachable(s) && a in s.nodes && s.nodes[a].rx.Held?
    ensures s'.net == s.net
    ensures var n := s.nodes[a];
            var g := n.rx.got;
            Becomes(s, s', a, n.(rx := if g.msg.h.seqNum in n.pending then ForWaiter(n.pending[g.msg.h.seqNum], g)
                                       else ForHandler(g)))
  {
    s' := Go(s, a, Lookup);
  }

  lemma Dispatches(s: State, a: Addr, m: Msg) returns (s': State)
    requires Reachable(s) && a in s.nodes && s.nodes[a].rx.ForHandler?
    requires s.nodes[a].role.UP? ==> HasRoom(s.nodes[a].role.up.sessions)
    requires var e := Handle(s.nodes[a].role, s.nodes[a].rx.got); e.Effect? && e.reply == Some(m)
    requires Sendable(m, true)
    ensures a in s'.nodes && s'.net == s.net + multiset{ReplyDgram(a, s.nodes[a].role, s.nodes[a].rx.got, m)}
    ensures var n := s.nodes[a];
            Becomes(s, s', a, n.(role := Handle(n.role, n.rx.got).role, rx := Idle, counts := s'.nodes[a].counts))
  {
    s' := Go(s, a, Dispatch(true));
  }

  /** A request in transit is received, handled and answered. */
  lemma Serves(s: State, a: Addr, d: Dgram, m: Msg) returns (s': State)
    requires Reachable(s) && a in s.nodes && s.nodes[a].rx.Idle? && d in s.net && d.dst == a
    requires d.msg.h.seqNum !in s.nodes[a].pending && (s.nodes[a].role.UP? ==> HasRoom(s.nodes[a].role.up.sessions))
    requires var e := Handle(s.nodes[a].role, Got(d.src, d.msg, d.tag)); e.Effect? && e.reply == Some(m)
    requires Sendable(m, true)
    ensures a in s'.nodes
    ensures var n, g := s.nodes[a], Got(d.src, d.msg, d.tag);
            && Becomes(s, s', a, n.(role := Handle(n.role, g).role, counts := s'.nodes[a].counts))
            && s'.net == s.net - multiset{d} + multiset{ReplyDgram(a, n.role, g, m)}
  {
    var s1 := Receives(s, a, d);
    var s2 := LooksUp(s1, a);
    s' := Dispatches(s2, a, m);
    assert s'.nodes == s.nodes[a := s'.nodes[a]];
  }

  // ----- being answered -----

  lemma Hands(s: State, a: Addr) returns (s': State)
    requires Reachable(s) && a in s.nodes && s.nodes[a].rx.ForWaiter? && s.nodes[a].rx.call < |s.nodes[a].calls|
    requires s.nodes[a].calls[s.nodes[a].rx.call].chan.None?
    ensures s'.net == s.net && a in s'.nodes
    ensures var n := s.nodes[a];
            Becomes(s, s', a, n.(rx := Idle, counts := s'.nodes[a].counts,
              calls := n.calls[n.rx.call := n.calls[n.rx.call].(chan := Some(n.rx.got))]))
  {
    s' := Go(s, a, Hand);
  }

  lemma Takes(s: State, a: Addr, q: nat) returns (s': State)
    requires Reachable(s) && a in s.nodes && q < |s.nodes[a].calls|
    requires s.nodes[a].calls[q].pc.Waiting? && s.nodes[a].calls[q].chan.Some?
    ensures s'.net == s.net
    ensures var n := s.nodes[a];
            Becomes(s, s', a, n.(calls := n.calls[q := n.calls[q].(chan := None, answer := n.calls[q].chan, pc := Leaving)]))
  {
    s' := Go(s, a, Take(q));
  }

  function Answered(c: Call, g: Got): Call {
    c.(answer := Some(g), pc := Returned)
  }

  /** A message in transit reaches the waiter for its number, and its call returns. */
  lemma IsAnswered(s: State, a: Addr, d: Dgram, q: nat) returns (s': State)
    requires Reachable(s) && a in s.nodes && s.nodes[a].rx.Idle? && d in s.net && d.dst == a
    requires var n := s.nodes[a];
             && d.msg.h.seqNum in n.pending && n.pending[d.msg.h.seqNum] == q < |n.calls|
             && n.calls[q].pc.Waiting? && n.calls[q].chan.None? && n.calls[q].msg.h.seqNum == d.msg.h.seqNum
    ensures a in s'.nodes && s'.net == s.net - multiset{d}
    ensures var n := s.nodes[a];
            Becomes(s, s', a, n.(pending := n.pending - {d.msg.h.seqNum}, counts := s'.nodes[a].counts,
              calls := n.calls[q := Answered(n.calls[q], Got(d.src, d.msg, d.tag))]))
  {
    var n, g := s.nodes[a], Got(d.src, d.msg, d.tag);
    var s1 := Receives(s, a, d);
    var s2 := LooksUp(s1, a);
    var s3 := Hands(s2, a);
    var s4 := Takes(s3, a, q);
    s' := Leaves(s4, a, q);
    assert s'.nodes[a].calls == n.calls[q := Answered(n.calls[q], g)];
    assert s'.nodes == s.nodes[a := s'.nodes[a]];
  }

  // ----- a whole exchange -----

  /** The node after call q was made and answered by g. */
  function AfterCall(n: Node, q: nat, g: Got): Node
    requires q < |n.calls| && n.seqNum < 0xFFFF_FFFF
  {
    n.(seqNum := NextSeq(n.seqNum), drawn := n.drawn + 1, calls := n.calls[q := Answered(Asked(n, n.calls[q]), g)])
  }

  function Question(a: Addr, n: Node, q: nat): Got
    requires q < |n.calls|
  {
    Got(a, Sized(RequestMsg(n.calls[q].job, n.seqNum)), Tag(a, q, Asking))
  }

  /** The answer to call q, when its peer replies m. */
  function Answer(a: Addr, n: Node, q: nat, role: Role, m: Msg): Got
    requires q < |n.calls|
  {
    Got(n.calls[q].dst, Sized(m), Tag(a, q, Answering(if role.UP? then |role.log| else 0)))
  }

  ghost predicate Quiescent(n: Node) {
    n.rx.Idle? && n.pending == map[] && n.seqNum < 0xFFFF_FFFF
  }

  /** Both nodes are as given, but for the accounting of messages. */
  ghost predicate Pair(s: State, s': State, a: Addr, n: Node, b: Addr, m: Node) {
    && a in s'.nodes && b in s'.nodes
    && s'.nodes == s.nodes[a := n.(counts := s'.nodes[a].counts)][b := m.(counts := s'.nodes[b].counts)]
  }

  lemma OneOut<T>(m: multiset<T>, x: T, y: T)
    ensures m + multiset{x} - multiset{x} == m
    ensures m + multiset{x} - multiset{x} + multiset{y} == m + multiset{y}
  {
  }

  /** Call q of node a may be made, and node b would reply m. */
  ghost predicate Callable(s: State, a: Addr, b: Addr, q: nat, m: Msg) {
    && Reachable(s) && a in s.nodes && b in s.nodes && a != b
    && Quiescent(s.nodes[a]) && Quiescent(s.nodes[b]) && (s.nodes[b].role.UP? ==> HasRoom(s.nodes[b].role.up.sessions))
    && q < |s.nodes[a].calls|
    && var c := s.nodes[a].calls[q];
    && c.dst == b && c.chan.None? && (c.pc.Allocated? || (c.pc.Started? && !c.job.Create?))
    && Sendable(RequestMsg(c.job, s.nodes[a].seqNum), true) && Sendable(m, true)
    && m.h.seqNum == s.nodes[a].seqNum
    && Handle(s.nodes[b].role, Question(a, s.nodes[a], q)).Effect?
    && Handle(s.nodes[b].role, Question(a, s.nodes[a], q)).reply == Some(m)
  }

  lemma AsksAndServes(s: State, a: Addr, b: Addr, q: nat, m: Msg) returns (s': State)
    requires Callable(s, a, b, q, m)
    ensures Reachable(s') && s'.duplicating == s.duplicating
    ensures s'.net == s.net + multiset{ReplyDgram(b, s.nodes[b].role, Question(a, s.nodes[a], q), m)}
    ensures var n := s.nodes[a];
            Pair(s, s', a, n.(seqNum := NextSeq(n.seqNum), drawn := n.drawn + 1, pending := map[n.seqNum := q],
                              calls := n.calls[q := Asked(n, n.calls[q])]),
                 b, s.nodes[b].(role := Handle(s.nodes[b].role, Question(a, n, q)).role))
  {
    var n := s.nodes[a];
    var d := RequestDgram(a, q, Asked(n, n.calls[q]));
    var s1 := Asks(s, a, q);
    s' := Serves(s1, b, d, m);
    OneOut(s.net, d, ReplyDgram(b, s.nodes[b].role, Question(a, n, q), m));
    assert n.pending[n.seqNum := q] == map[n.seqNum := q];
  }

  lemma Exchange(s: State, a: Addr, b: Addr, q: nat, m: Msg) returns (s': State)
    requires Callable(s, a, b, q, m)
    ensures Reachable(s') && s'.net == s.net && s'.duplicating == s.duplicating
    ensures Pair(s, s', a, AfterCall(s.nodes[a], q, Answer(a, s.nodes[a], q, s.nodes[b].role, m)),
                 b, s.nodes[b].(role := Handle(s.nodes[b].role, Question(a, s.nodes[a], q)).role))
  {
    var n := s.nodes[a];
    var d := ReplyDgram(b, s.nodes[b].role, Question(a, n, q), m);
    var s1 := AsksAndServes(s, a, b, q, m);
    assert d in s1.net && s1.nodes[a].calls[q] == Asked(n, n.calls[q]);
    s' := IsAnswered(s1, a, d, q);
    OneOut(s.net, d, d);
    TwiceReplaced(n.calls, q, Asked(n, n.calls[q]), Answered(Asked(n, n.calls[q]), Answer(a, n, q, s.nodes[b].role, m)));
    assert map[n.seqNum := q] - {n.seqNum} == map[];
  }

  lemma TwiceReplaced<T>(s: seq<T>, i: nat, x: T, y: T)
    requires i < |s|
    ensures s[i := x][i := y] == s[i := y]
  {
  }
}
